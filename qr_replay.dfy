/** The latest QR payload the chat library produced, kept so that an observer who connects
    later is shown it at once. */
module QrReplay {
  import opened Wrappers

  /** An event the server pushes to its observers. */
  datatype Emit = QrEmit(payload: string) | ReadyEmit

  /** JavaScript truthiness of the stored value: both `undefined` and "" are falsy. */
  predicate Truthy(v: Option<string>) {
    v.Some? && v.value != ""
  }

  class QrHolder {
    /** `global.qrCode`: absent until the first `qr` event. */
    var qrCode: Option<string>
    /** The payloads of all `qr` events so far, oldest first. */
    ghost var received: seq<string>

    /** The stored value is the latest payload received, if any. */
    ghost predicate Valid()
      reads this
    {
      qrCode == if received == [] then None else Some(received[|received| - 1])
    }

    constructor ()
      ensures Valid() && received == [] && qrCode == None
    {
      qrCode := None;
      received := [];
    }

    /** The library's `qr` event: overwrite the stored value and broadcast the payload. */
    method OnQr(qr: string) returns (broadcast: Emit)
      requires Valid()
      modifies this
      ensures Valid() && received == old(received) + [qr]
      ensures qrCode == Some(qr) && broadcast == QrEmit(qr)
    {
      qrCode := Some(qr);
      received := received + [qr];
      broadcast := QrEmit(qr);
    }

    /** The library's `ready` event: broadcast it. The stored QR value is left as it is. */
    method OnReady() returns (broadcast: Emit)
      requires Valid()
      ensures broadcast == ReadyEmit
    {
      broadcast := ReadyEmit;
    }

    /** A new observer connects: it is sent the stored QR payload when that is truthy. */
    method OnConnection() returns (replay: Option<Emit>)
      requires Valid()
      ensures replay.Some? <==> received != [] && received[|received| - 1] != ""
      ensures replay.Some? ==> replay.value == QrEmit(received[|received| - 1])
    {
      if Truthy(qrCode) {
        replay := Some(QrEmit(qrCode.value));
      } else {
        replay := None;
      }
    }
  }

  /** A `qr` event, then `ready`, then a new observer: the observer is still sent that QR
      payload (unless it is empty), since `ready` does not clear it. */
  method ReplayAfterReady(qr: string) returns (replay: Option<Emit>)
    ensures replay == if qr == "" then None else Some(QrEmit(qr))
  {
    var holder := new QrHolder();
    var _ := holder.OnQr(qr);
    var _ := holder.OnReady();
    replay := holder.OnConnection();
  }

  /** Two `qr` events in a row: a new observer is sent the second payload only, and
      nothing when that one is empty. */
  method LatestQrWins(first: string, second: string) returns (replay: Option<Emit>)
    ensures replay == if second == "" then None else Some(QrEmit(second))
  {
    var holder := new QrHolder();
    var _ := holder.OnQr(first);
    var _ := holder.OnQr(second);
    replay := holder.OnConnection();
  }
}
