/** The enumerations and records shared by the whole daemon: machine states, events,
    time qualities and the message that is broadcast on the bus. */
module TimeTypes {

  datatype Option<+T> = None | Some(value: T)

  datatype State =
    | Init
    | NtpWait
    | NtpFail
    | NtpAcquired
    | DttAcquired
    | SecureTimeAcquired
    | Running

  datatype Event =
    | AddTimeSrc
    | DeleteTimeSrc
    | AddTimeSync
    | DeleteTimeSync
    | TimerExpiry
    | NtpAvailable
    | DttTimeAvailable
    | SecureTimeAvailable
    | UnknownEvent

  datatype Quality = Poor | Good | Secure | Unknown

  datatype PublishEvent =
    | TimeInitial
    | NtpFailure
    | NtpSuccess
    | DttSuccess
    | SecureTimeSuccess
    | DeepSleepOn

  /** A broadcast. The wall-clock text it also carries is not part of the model. */
  datatype TimerMsg = TimerMsg(event: PublishEvent, quality: Quality, timerSrc: string, message: string)

  /** The text that belongs to a quality. */
  function Label(q: Quality): string {
    match q
    case Poor => "Poor"
    case Good => "Good"
    case Secure => "Secure"
    case Unknown => "Unknown"
  }

  lemma AppendSlice<T>(h: seq<T>, x: T, j: nat)
    requires j <= |h|
    ensures (h + [x])[..j] == h[..j]
  {
  }
}
