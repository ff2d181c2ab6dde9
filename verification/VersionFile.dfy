/** The parser of key=value files and the build time it extracts from the version file. */
module VersionFile {
  import opened TimeTypes

  /** std::string positions: an index, or npos. */
  datatype Position = Npos | Index(i: nat)

  predicate MatchesAt(s: string, token: string, i: nat) {
    i + |token| <= |s| && s[i..i + |token|] == token
  }

  /** s.find(token, from). */
  function Find(s: string, token: string, from: nat): (p: Position)
    requires from <= |s|
    ensures p.Index? ==> from <= p.i && p.i + |token| <= |s|
    decreases |s| - from
  {
    if MatchesAt(s, token, from) then Index(from)
    else if from == |s| then Npos
    else Find(s, token, from + 1)
  }

  /** s.find_first_not_of(chars, from). */
  function FindFirstNotOf(s: string, chars: string, from: nat): (p: Position)
    requires from <= |s|
    ensures p.Index? ==> from <= p.i < |s| && s[p.i] !in chars && forall j | from <= j < p.i :: s[j] in chars
    ensures p.Npos? ==> forall j | from <= j < |s| :: s[j] in chars
    decreases |s| - from
  {
    if from == |s| then Npos
    else if s[from] !in chars then Index(from)
    else FindFirstNotOf(s, chars, from + 1)
  }

  /** The binding whose key starts at a position, and where the next key starts. */
  datatype Line = NoBinding | Binding(key: string, value: string, next: Position)

  /** The text up to the token is the key, a run of token characters is skipped, and the value ends
      with its line. */
  function LineAt(s: string, token: string, from: nat): (l: Line)
    requires from <= |s|
    ensures l.Binding? && l.next.Index? ==> from < l.next.i <= |s|
  {
    match Find(s, token, from)
    case Npos => NoBinding
    case Index(e) =>
      match FindFirstNotOf(s, token, e)
      case Npos => NoBinding
      case Index(v) =>
        match Find(s, "\n", v)
        case Npos => Binding(s[from..e], s[v..], Npos)
        case Index(n) => Binding(s[from..e], s[v..n], Index(n + 1))
  }

  /** What tokenize computes from a key position on; an earlier binding wins. */
  function Parse(s: string, token: string, from: Position): map<string, string>
    requires from.Index? ==> from.i <= |s|
    decreases if from.Npos? then 0 else |s| + 1 - from.i
  {
    if from.Npos? then map[] else
    match LineAt(s, token, from.i)
    case NoBinding => map[]
    case Binding(key, value, next) => Parse(s, token, next) + map[key := value]
  }

  function Tokens(s: string, token: string): map<string, string> {
    Parse(s, token, Index(0))
  }

  function Emplace(m: map<string, string>, key: string, value: string): map<string, string> {
    if key in m then m else m[key := value]
  }

  /** One binding read and the rest still to read, before and after the binding joins the map. */
  lemma EmplaceIsMerge(rest: map<string, string>, key: string, value: string, m: map<string, string>)
    ensures rest + map[key := value] + m == rest + Emplace(m, key, value)
  {
    assert map[key := value] + m == Emplace(m, key, value);
  }

  /** A round of the loop: a line read and the lines still to read, before and after its binding joins
      the map. */
  lemma Round(s: string, token: string, from: nat, m: map<string, string>)
    requires from <= |s|
    ensures var line := LineAt(s, token, from);
            Parse(s, token, Index(from)) + m ==
            if line.NoBinding? then m else Parse(s, token, line.next) + Emplace(m, line.key, line.value)
  {
    var line := LineAt(s, token, from);
    if line.Binding? {
      EmplaceIsMerge(Parse(s, token, line.next), line.key, line.value, m);
    }
  }

  /** The loop of tokenize. It terminates for every text and token because the key position only
      moves towards the end of the text, and past it. */
  method Tokenize(s: string, token: string) returns (m: map<string, string>)
    ensures m == Tokens(s, token)
  {
    m := map[];
    var keyPos: Position := Index(0);
    var keyEnd := Find(s, token, 0);
    while keyEnd != Npos
      invariant keyPos.Index? ==> keyPos.i <= |s|
      invariant keyEnd == if keyPos.Npos? then Npos else Find(s, token, keyPos.i)
      invariant Tokens(s, token) == Parse(s, token, keyPos) + m
      decreases if keyPos.Npos? then 0 else |s| + 1 - keyPos.i
    {
      Round(s, token, keyPos.i, m);
      var valPos := FindFirstNotOf(s, token, keyEnd.i);
      if valPos == Npos {
        break;
      }
      var valEnd := Find(s, "\n", valPos.i);
      var key := s[keyPos.i..keyEnd.i];
      var value := if valEnd.Npos? then s[valPos.i..] else s[valPos.i..valEnd.i];
      m := Emplace(m, key, value);
      keyPos := valEnd;
      if keyPos != Npos {
        keyPos := Index(keyPos.i + 1);
      }
      keyEnd := if keyPos.Npos? then Npos else Find(s, token, keyPos.i);
    }
  }

  // ---- Round trip ----

  datatype Pair = Pair(key: string, value: string)

  function Serialize(ps: seq<Pair>): string {
    if ps == [] then "" else ps[0].key + ("=" + (ps[0].value + ("\n" + Serialize(ps[1..]))))
  }

  function FirstBindings(ps: seq<Pair>): map<string, string> {
    if ps == [] then map[] else FirstBindings(ps[1..]) + map[ps[0].key := ps[0].value]
  }

  predicate WellFormed(p: Pair) {
    '=' !in p.key && '\n' !in p.value && (p.value != "" ==> p.value[0] != '=')
  }

  /** Find means what std::string::find promises, for a token of one character. */
  lemma {:induction false} FindCharacter(s: string, c: char, from: nat)
    requires from <= |s|
    ensures match Find(s, [c], from)
            case Index(i) => i < |s| && s[i] == c && forall j :: from <= j < i ==> s[j] != c
            case Npos => forall j :: from <= j < |s| ==> s[j] != c
    decreases |s| - from
  {
    if from < |s| {
      assert s[from..from + 1] == [s[from]];
      FindCharacter(s, c, from + 1);
    }
  }

  lemma FoundAt(s: string, c: char, from: nat, at: nat)
    requires from <= at < |s| && s[at] == c && forall j :: from <= j < at ==> s[j] != c
    ensures Find(s, [c], from) == Index(at)
  {
    FindCharacter(s, c, from);
  }

  function Equals(n: nat): string {
    seq(n, _ => '=')
  }

  /** The text from position k on starts with part. */
  lemma PartAt(s: string, k: nat, part: string, tail: string)
    requires k <= |s| && s[k..] == part + tail
    ensures k + |part| <= |s| && s[k..k + |part|] == part && s[k + |part|..] == tail
  {
    assert s[k..k + |part|] == s[k..][..|part|];
    assert s[k + |part|..] == s[k..][|part|..];
  }

  lemma TwoParts(s: string, k: nat, first: string, second: string, tail: string)
    requires k <= |s| && s[k..] == first + (second + tail)
    ensures var mid := k + |first|;
            var end := mid + |second|;
            end <= |s| && s[k..mid] == first && s[mid..end] == second && s[end..] == tail
  {
    PartAt(s, k, first, second + tail);
    PartAt(s, k + |first|, second, tail);
  }

  lemma AbsentIn(s: string, c: char, from: nat, to: nat)
    requires from <= to <= |s| && c !in s[from..to]
    ensures forall j :: from <= j < to ==> s[j] != c
  {
    forall j | from <= j < to ensures s[j] != c {
      assert s[j] == s[from..to][j - from];
    }
  }

  lemma EqualsIn(s: string, from: nat, to: nat)
    requires from <= to <= |s| && s[from..to] == Equals(to - from)
    ensures forall j :: from <= j < to ==> s[j] == '='
  {
    forall j | from <= j < to ensures s[j] == '=' {
      assert s[j] == s[from..to][j - from];
    }
  }

  lemma SkippedTo(s: string, e: nat, v: nat)
    requires e <= v < |s| && s[v] != '=' && forall j :: e <= j < v ==> s[j] == '='
    ensures FindFirstNotOf(s, "=", e) == Index(v)
  {
  }

  /** One line of a text, by the positions of its parts: key, equals signs, value, line break. */
  lemma LineIs(s: string, k: nat, e: nat, v: nat, n: nat)
    requires k <= e < v <= n < |s|
    requires forall j :: k <= j < e ==> s[j] != '='
    requires forall j :: e <= j < v ==> s[j] == '='
    requires s[v] != '=' && s[n] == '\n' && forall j :: v <= j < n ==> s[j] != '\n'
    ensures LineAt(s, "=", k) == Binding(s[k..e], s[v..n], Index(n + 1))
  {
    FoundAt(s, '=', k, e);
    FoundAt(s, '\n', v, n);
    SkippedTo(s, e, v);
  }

  /** The slices that a serialised pair occupies. */
  predicate PartsAt(s: string, k: nat, p: Pair, signs: nat) {
    var e := k + |p.key|;
    var v := e + signs;
    var n := v + |p.value|;
    n < |s| && s[k..e] == p.key && s[e..v] == Equals(signs) && s[v..n] == p.value && s[n] == '\n'
  }

  function NextKey(k: nat, p: Pair, signs: nat): nat {
    k + |p.key| + signs + |p.value| + 1
  }

  lemma PartsOfPair(s: string, k: nat, p: Pair, signs: nat, rest: string)
    requires k <= |s| && s[k..] == p.key + (Equals(signs) + (p.value + ("\n" + rest)))
    ensures PartsAt(s, k, p, signs) && s[NextKey(k, p, signs)..] == rest
  {
    var v := k + |p.key| + signs;
    var n := v + |p.value|;
    TwoParts(s, k, p.key, Equals(signs), p.value + ("\n" + rest));
    TwoParts(s, v, p.value, "\n", rest);
    assert s[n] == s[n..n + 1][0];
  }

  lemma PartsAreLine(s: string, k: nat, p: Pair, signs: nat)
    requires WellFormed(p) && signs > 0 && PartsAt(s, k, p, signs)
    ensures LineAt(s, "=", k) == Binding(p.key, p.value, Index(NextKey(k, p, signs)))
  {
    var e := k + |p.key|;
    var v := e + signs;
    var n := v + |p.value|;
    AbsentIn(s, '=', k, e);
    EqualsIn(s, e, v);
    AbsentIn(s, '\n', v, n);
    assert s[v] != '=' by {
      assert p.value != "" ==> s[v] == s[v..n][0];
    }
    LineIs(s, k, e, v, n);
  }

  /** One well-formed line of a text. Whatever the number of equals signs, they separate the key
      from the value. */
  lemma LineOfPair(s: string, k: nat, p: Pair, signs: nat, rest: string)
    requires WellFormed(p) && signs > 0
    requires k <= |s| && s[k..] == p.key + (Equals(signs) + (p.value + ("\n" + rest)))
    ensures var next := NextKey(k, p, signs);
            next <= |s| && s[next..] == rest && LineAt(s, "=", k) == Binding(p.key, p.value, Index(next))
  {
    PartsOfPair(s, k, p, signs, rest);
    PartsAreLine(s, k, p, signs);
  }

  lemma {:induction false} RoundTripFrom(s: string, k: nat, ps: seq<Pair>)
    requires forall p :: p in ps ==> WellFormed(p)
    requires k <= |s| && s[k..] == Serialize(ps)
    ensures Parse(s, "=", Index(k)) == FirstBindings(ps)
    decreases |ps|
  {
    if ps == [] {
      FindCharacter(s, '=', k);
    } else {
      var p, rest := ps[0], Serialize(ps[1..]);
      var next := NextKey(k, p, 1);
      assert next <= |s| && s[next..] == rest && LineAt(s, "=", k) == Binding(p.key, p.value, Index(next)) by {
        assert Equals(1) == "=";
        LineOfPair(s, k, p, 1, rest);
      }
      RoundTripFrom(s, next, ps[1..]);
    }
  }

  /** Parser round trip: the first bindings of any list of well-formed pairs are read back, empty
      values and keys with line breaks included. */
  lemma RoundTrip(ps: seq<Pair>)
    requires forall p :: p in ps ==> WellFormed(p)
    ensures Tokens(Serialize(ps), "=") == FirstBindings(ps)
  {
    RoundTripFrom(Serialize(ps), 0, ps);
  }

  /** Lines of which the last one has no line break. */
  function SerializeUnended(ps: seq<Pair>, last: Pair): string {
    if ps == [] then last.key + ("=" + last.value)
    else ps[0].key + ("=" + (ps[0].value + ("\n" + SerializeUnended(ps[1..], last))))
  }

  /** A line that ends with the text, by the positions of its parts. */
  lemma UnendedLineIs(s: string, k: nat, e: nat)
    requires k <= e < |s| - 1 && '=' !in s[k..e] && s[e] == '='
    requires s[e + 1] != '=' && '\n' !in s[e + 1..]
    ensures LineAt(s, "=", k) == Binding(s[k..e], s[e + 1..], Npos)
  {
    AbsentIn(s, '=', k, e);
    FoundAt(s, '=', k, e);
    SkippedTo(s, e, e + 1);
    FindCharacter(s, '\n', e + 1);
    assert forall j :: e + 1 <= j < |s| ==> s[j] in s[e + 1..];
  }

  lemma LastLineIs(s: string, k: nat, p: Pair)
    requires WellFormed(p) && p.value != "" && k <= |s| && s[k..] == p.key + ("=" + p.value)
    ensures LineAt(s, "=", k) == Binding(p.key, p.value, Npos)
  {
    var e := k + |p.key|;
    TwoParts(s, k, p.key, "=", p.value);
    assert s[e] == s[e..e + 1][0];
    assert s[e + 1] == s[e + 1..][0];
    UnendedLineIs(s, k, e);
  }

  lemma FirstBindingsStep(ps: seq<Pair>, last: Pair)
    requires ps != []
    ensures FirstBindings(ps + [last]) == FirstBindings(ps[1..] + [last]) + map[ps[0].key := ps[0].value]
  {
    assert (ps + [last])[1..] == ps[1..] + [last];
  }

  lemma {:induction false} UnendedFrom(s: string, k: nat, ps: seq<Pair>, last: Pair)
    requires (forall p :: p in ps ==> WellFormed(p)) && WellFormed(last) && last.value != ""
    requires k <= |s| && s[k..] == SerializeUnended(ps, last)
    ensures Parse(s, "=", Index(k)) == FirstBindings(ps + [last])
    decreases |ps|
  {
    if ps == [] {
      LastLineIs(s, k, last);
      assert FirstBindings([last]) == map[last.key := last.value];
    } else {
      var p, rest := ps[0], SerializeUnended(ps[1..], last);
      var next := NextKey(k, p, 1);
      assert next <= |s| && s[next..] == rest && LineAt(s, "=", k) == Binding(p.key, p.value, Index(next)) by {
        assert Equals(1) == "=";
        LineOfPair(s, k, p, 1, rest);
      }
      UnendedFrom(s, next, ps[1..], last);
      FirstBindingsStep(ps, last);
    }
  }

  /** The last line is read without a line break too, unless its value is empty. */
  lemma RoundTripUnended(ps: seq<Pair>, last: Pair)
    requires (forall p :: p in ps ==> WellFormed(p)) && WellFormed(last) && last.value != ""
    ensures Tokens(SerializeUnended(ps, last), "=") == FirstBindings(ps + [last])
  {
    UnendedFrom(SerializeUnended(ps, last), 0, ps, last);
  }

  /** Whatever the pair, its line yields one binding, whose key ends at the first '='. */
  lemma OneBindingRead(p: Pair, s: string) returns (e: nat, v: nat, n: nat)
    requires s == p.key + "=" + p.value + "\n"
    ensures e <= |p.key| && e < v <= n < |s| && s[v] != '=' && s[n] == '\n'
    ensures forall j :: 0 <= j < e ==> s[j] != '='
    ensures forall j :: v <= j < n ==> s[j] != '\n'
    ensures s[0..e] in Tokens(s, "=") && Tokens(s, "=")[s[0..e]] == s[v..n]
  {
    var k, last := |p.key|, |s| - 1;
    assert s[k] == '=' && s[last] == '\n';
    FindCharacter(s, '=', 0);
    e := Find(s, "=", 0).i;
    v := FindFirstNotOf(s, "=", e).i;
    FindCharacter(s, '\n', v);
    n := Find(s, "\n", v).i;
  }

  lemma ValueCutShort(p: Pair, v: nat, n: nat)
    requires !WellFormed(p)
    requires var s := p.key + "=" + p.value + "\n";
             && |p.key| < v <= n < |s| && '=' !in s[..|p.key|] && s[v] != '='
             && s[n] == '\n' && forall j :: v <= j < n ==> s[j] != '\n'
    ensures n - v < |p.value|
  {
    var s, start := p.key + "=" + p.value + "\n", |p.key| + 1;
    assert s[..|p.key|] == p.key;
    assert forall j :: 0 <= j < |p.value| ==> s[start + j] == p.value[j];
    if v == start && '\n' in p.value {
      var j :| 0 <= j < |p.value| && p.value[j] == '\n';
      assert s[start + j] == '\n';
    }
  }

  /** A pair that is not well formed is read back with a shorter key or a shorter value. */
  lemma IllFormedLost(p: Pair)
    requires !WellFormed(p)
    ensures Tokens(Serialize([p]), "=") != map[p.key := p.value]
  {
    var s := p.key + "=" + p.value + "\n";
    assert Serialize([p]) == s;
    var e, v, n := OneBindingRead(p, s);
    var key, value := s[0..e], s[v..n];
    if e == |p.key| {
      assert key == s[..e] == p.key;
      ValueCutShort(p, v, n);
      assert |value| < |p.value|;
    } else {
      assert |key| != |p.key|;
    }
  }

  /** The conditions on key and value are exactly those under which a pair survives. */
  lemma RoundTripExactly(p: Pair)
    ensures Tokens(Serialize([p]), "=") == map[p.key := p.value] <==> WellFormed(p)
  {
    if WellFormed(p) {
      RoundTrip([p]);
      assert FirstBindings([p]) == map[p.key := p.value];
    } else {
      IllFormedLost(p);
    }
  }

  /** A last key with nothing but equals signs behind it is dropped. */
  lemma TrailingKeyDropped(key: string, n: nat)
    requires '=' !in key && n > 0
    ensures Tokens(key + Equals(n), "=") == map[]
  {
    var s := key + Equals(n);
    FindCharacter(s, '=', 0);
    assert forall j :: 0 <= j < |key| ==> s[j] == key[j];
    assert forall j :: |key| <= j < |s| ==> s[j] == '=';
    assert s[|key|] == '=';
  }

  // ---- The build time ----

  function Unquoted(s: string): string {
    if s == "" then ""
    else (if s[0] == '"' then "" else [s[0]]) + Unquoted(s[1..])
  }

  /** parseTime stands for strptime and timegm. A missing file, key or an unreadable date give 0. */
  function BuildTimeOf(content: Option<string>, parseTime: string -> Option<int>): int {
    match content
    case None => 0
    case Some(text) =>
      var tokens := Tokens(text, "=");
      match parseTime(Unquoted(if "BUILD_TIME" in tokens then tokens["BUILD_TIME"] else ""))
      case None => 0
      case Some(t) => t
  }

  method BuildTime(content: Option<string>, parseTime: string -> Option<int>) returns (verTime: int)
    ensures verTime == BuildTimeOf(content, parseTime)
  {
    verTime := 0;
    if content.Some? {
      var tokens := Tokenize(content.value, "=");
      var timestr := if "BUILD_TIME" in tokens then tokens["BUILD_TIME"] else "";
      timestr := Unquoted(timestr);
      var parsed := parseTime(timestr);
      if parsed.Some? {
        verTime := parsed.value;
      }
    }
  }

  lemma {:induction false} UnquotedConcat(s: string, t: string)
    ensures Unquoted(s + t) == Unquoted(s) + Unquoted(t)
  {
    if s == "" {
      assert s + t == t;
    } else {
      assert (s + t)[1..] == s[1..] + t;
      UnquotedConcat(s[1..], t);
    }
  }

  lemma {:induction false} UnquotedKeepsTheRest(s: string)
    ensures '"' !in Unquoted(s)
    ensures '"' !in s ==> Unquoted(s) == s
  {
    if s != "" {
      UnquotedKeepsTheRest(s[1..]);
    }
  }

  lemma {:induction false} UnquotedSnoc(s: string)
    requires '"' !in s
    ensures Unquoted(s + "\"") == s
  {
    if s != "" {
      UnquotedSnoc(s[1..]);
      assert (s + "\"")[1..] == s[1..] + "\"";
    }
  }

  lemma UnquotedQuotes(s: string)
    requires '"' !in s
    ensures Unquoted("\"" + s + "\"") == s
  {
    UnquotedSnoc(s);
    assert ("\"" + s + "\"")[1..] == s + "\"";
  }

  lemma {:induction false} FirstBindingOf(before: seq<Pair>, p: Pair, after: seq<Pair>)
    requires forall q :: q in before ==> q.key != p.key
    ensures var m := FirstBindings(before + [p] + after); p.key in m && m[p.key] == p.value
  {
    if before != [] {
      assert (before + [p] + after)[1..] == before[1..] + [p] + after;
      FirstBindingOf(before[1..], p, after);
    }
  }

  lemma {:induction false} UnboundKey(ps: seq<Pair>, key: string)
    requires forall p :: p in ps ==> p.key != key
    ensures key !in FirstBindings(ps)
  {
    if ps != [] {
      UnboundKey(ps[1..], key);
    }
  }

  /** Without a file there is no build time, and without its key the empty text is parsed. */
  lemma BuildTimeMissing(ps: seq<Pair>, parseTime: string -> Option<int>)
    requires forall p :: p in ps ==> WellFormed(p) && p.key != "BUILD_TIME"
    ensures BuildTimeOf(None, parseTime) == 0
    ensures parseTime("").None? ==> BuildTimeOf(Some(Serialize(ps)), parseTime) == 0
  {
    RoundTrip(ps);
    UnboundKey(ps, "BUILD_TIME");
  }

  /** The quoted build time of a well-formed version file reaches strptime without its quotes,
      wherever the line stands, as long as no earlier line has the same key. */
  lemma BuildTimeFound(before: seq<Pair>, time: string, after: seq<Pair>, parseTime: string -> Option<int>)
    requires forall p :: p in before + after ==> WellFormed(p)
    requires forall p :: p in before ==> p.key != "BUILD_TIME"
    requires '"' !in time && '\n' !in time
    ensures BuildTimeOf(Some(Serialize(before + [Pair("BUILD_TIME", "\"" + time + "\"")] + after)), parseTime)
            == match parseTime(time) case None => 0 case Some(t) => t
  {
    var line := Pair("BUILD_TIME", "\"" + time + "\"");
    RoundTrip(before + [line] + after);
    FirstBindingOf(before, line, after);
    UnquotedQuotes(time);
  }
}
