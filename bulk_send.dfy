/** The `/send-messages` handler: one pass over the contacts, asking the chat library
    whether each number is registered, sending to the registered ones, and tallying a
    delivery report. The chat library is an oracle: its answers for the i-th contact are
    the i-th entry of `replies`. */
module BulkSend {
  import opened Wrappers
  import opened Phone

  /** One row of the uploaded spreadsheet. */
  datatype Contact = Contact(name: string, phone: PhoneValue)

  /** What `client.isRegisteredUser(chatId)` does: resolve truthy, resolve falsy, or throw. */
  datatype CheckReply = Registered | Unregistered | CheckThrows(message: string)

  /** What `client.sendMessage(chatId, message)` does: complete, or throw. */
  datatype SendReply = Delivered | SendThrows(message: string)

  /** The library's behaviour for one contact. `send` is only consulted when the check
      says the number is registered. */
  datatype Reply = Reply(check: CheckReply, send: SendReply)

  /** A call made into the chat library, in the order the handler makes them. */
  datatype Call = IsRegisteredUser(chatId: string) | SendMessage(chatId: string, content: string)

  /** The `status` field of a detail record: 'success' or 'failed'. */
  datatype Status = Success | Failed

  /** One entry of `report.details`; `number` is the contact's phone field as given. */
  datatype Detail = Detail(name: string, number: PhoneValue, status: Status, error: Option<string>)

  /** The counter of the report a contact is tallied in. */
  datatype Bucket = InSuccessful | InNotRegistered | InFailed

  /** Everything that handling one contact contributes. */
  datatype Handled = Handled(bucket: Bucket, detail: Detail, calls: seq<Call>)

  /** The report the handler answers with. */
  datatype Report = Report(total: nat, successful: nat, failed: nat, notRegistered: nat, details: seq<Detail>)

  /** The running state of the loop: the report's counters and details, and the calls made. */
  datatype Tally = Tally(successful: nat, failed: nat, notRegistered: nat, details: seq<Detail>, calls: seq<Call>)

  /** The error recorded for a number the library says is not registered. */
  const NotRegisteredError: string := "Number not registered on WhatsApp"

  /** The chat id the handler derives from a contact whose phone field is present. */
  function ContactChatId(c: Contact): (id: string)
    requires !c.phone.Missing?
    ensures var number := Normalise(PhoneToString(c.phone).value);
            && |id| == |number| + |ChatSuffix|
            && id[..|number|] == number && id[|number|..] == ChatSuffix
    ensures NumberOf(id) == Normalise(PhoneToString(c.phone).value)
  {
    var number := Normalise(PhoneToString(c.phone).value);
    NumberOfChatId(number);
    ChatId(number)
  }

  /** Reference classification of a contact by what the library does for it. */
  function Classify(c: Contact, r: Reply): Bucket {
    if c.phone.Missing? then InFailed
    else match r.check
      case CheckThrows(_) => InFailed
      case Unregistered => InNotRegistered
      case Registered => if r.send.Delivered? then InSuccessful else InFailed
  }

  /** One iteration of the loop body, including its `catch` block. */
  function Handle(c: Contact, message: string, r: Reply): (h: Handled)
    ensures h.bucket == Classify(c, r)
    ensures h.detail.name == c.name && h.detail.number == c.phone
    ensures h.detail.status == Success <==> h.bucket == InSuccessful
    ensures h.detail.status == Success <==> h.detail.error.None?
    ensures h.bucket == InNotRegistered ==> h.detail.error == Some(NotRegisteredError)
    ensures c.phone.Missing? ==> h.calls == [] && h.detail.error == Some(MissingPhoneError)
    ensures !c.phone.Missing? && r.check.CheckThrows? ==> h.detail.error == Some(r.check.message)
    ensures !c.phone.Missing? && !r.check.Registered? ==> h.calls == [IsRegisteredUser(ContactChatId(c))]
    ensures !c.phone.Missing? && r.check.Registered?
            ==> h.calls == [IsRegisteredUser(ContactChatId(c)), SendMessage(ContactChatId(c), message)]
    ensures !c.phone.Missing? && r.check.Registered? && r.send.SendThrows?
            ==> h.detail.error == Some(r.send.message)
  {
    match PhoneToString(c.phone)
    case Throws(e) => Handled(InFailed, Detail(c.name, c.phone, Failed, Some(e)), [])
    case Ok(text) =>
      var chatId := ChatId(Normalise(text));
      match r.check
      case CheckThrows(e) =>
        Handled(InFailed, Detail(c.name, c.phone, Failed, Some(e)), [IsRegisteredUser(chatId)])
      case Unregistered =>
        Handled(InNotRegistered, Detail(c.name, c.phone, Failed, Some(NotRegisteredError)),
                [IsRegisteredUser(chatId)])
      case Registered =>
        var calls := [IsRegisteredUser(chatId), SendMessage(chatId, message)];
        match r.send
        case SendThrows(e) => Handled(InFailed, Detail(c.name, c.phone, Failed, Some(e)), calls)
        case Delivered => Handled(InSuccessful, Detail(c.name, c.phone, Success, None), calls)
  }

  /** Adds one handled contact to the running state. */
  function Record(t: Tally, h: Handled): Tally {
    Tally(t.successful + (if h.bucket == InSuccessful then 1 else 0),
          t.failed + (if h.bucket == InFailed then 1 else 0),
          t.notRegistered + (if h.bucket == InNotRegistered then 1 else 0),
          t.details + [h.detail],
          t.calls + h.calls)
  }

  /** The state the loop reaches after handling all of `contacts`, in order. */
  function Run(contacts: seq<Contact>, message: string, replies: seq<Reply>): (t: Tally)
    requires |replies| == |contacts|
    ensures t.successful + t.failed + t.notRegistered == |contacts|
    ensures |t.details| == |contacts|
  {
    if contacts == [] then Tally(0, 0, 0, [], [])
    else
      var n := |contacts| - 1;
      Record(Run(contacts[..n], message, replies[..n]), Handle(contacts[n], message, replies[n]))
  }

  /** Handling one more contact extends the fold by one step. */
  lemma RunStep(contacts: seq<Contact>, message: string, replies: seq<Reply>, i: nat)
    requires |replies| == |contacts| && i < |contacts|
    ensures Run(contacts[..i + 1], message, replies[..i + 1])
            == Record(Run(contacts[..i], message, replies[..i]), Handle(contacts[i], message, replies[i]))
  {
    assert contacts[..i + 1][..i] == contacts[..i] && replies[..i + 1][..i] == replies[..i];
  }

  /** The report the handler answers with: the total is the number of contacts, the three
      counters add up to it, and there is exactly one detail per contact. */
  function ReportOf(contacts: seq<Contact>, message: string, replies: seq<Reply>): (r: Report)
    requires |replies| == |contacts|
    ensures r.total == |contacts|
    ensures r.successful + r.failed + r.notRegistered == r.total
    ensures |r.details| == r.total
  {
    var t := Run(contacts, message, replies);
    Report(|contacts|, t.successful, t.failed, t.notRegistered, t.details)
  }

  /** How many contacts the reference classification puts in bucket `b`. */
  function CountIn(contacts: seq<Contact>, replies: seq<Reply>, b: Bucket): nat
    requires |replies| == |contacts|
  {
    if contacts == [] then 0
    else
      var n := |contacts| - 1;
      CountIn(contacts[..n], replies[..n], b) + (if Classify(contacts[n], replies[n]) == b then 1 else 0)
  }

  /** Every contact lands in exactly one bucket. */
  lemma {:induction false} CountInPartition(contacts: seq<Contact>, replies: seq<Reply>)
    requires |replies| == |contacts|
    ensures CountIn(contacts, replies, InSuccessful) + CountIn(contacts, replies, InFailed)
            + CountIn(contacts, replies, InNotRegistered) == |contacts|
  {
    if contacts != [] {
      var n := |contacts| - 1;
      CountInPartition(contacts[..n], replies[..n]);
    }
  }

  /** The counters count the buckets of the reference classification. */
  lemma {:induction false} RunCounts(contacts: seq<Contact>, message: string, replies: seq<Reply>)
    requires |replies| == |contacts|
    ensures Run(contacts, message, replies).successful == CountIn(contacts, replies, InSuccessful)
    ensures Run(contacts, message, replies).failed == CountIn(contacts, replies, InFailed)
    ensures Run(contacts, message, replies).notRegistered == CountIn(contacts, replies, InNotRegistered)
  {
    if contacts != [] {
      var n := |contacts| - 1;
      RunCounts(contacts[..n], message, replies[..n]);
    }
  }

  /** There is one detail per contact, in input order, each determined by that contact and
      the library's reply for it alone. */
  lemma {:induction false} RunDetails(contacts: seq<Contact>, message: string, replies: seq<Reply>)
    requires |replies| == |contacts|
    ensures |Run(contacts, message, replies).details| == |contacts|
    ensures forall i :: 0 <= i < |contacts| ==>
              Run(contacts, message, replies).details[i] == Handle(contacts[i], message, replies[i]).detail
  {
    if contacts != [] {
      var n := |contacts| - 1;
      RunDetails(contacts[..n], message, replies[..n]);
    }
  }

  /** What each detail record says about its contact: same position, same name, the phone
      field as given, 'success' exactly when the message went out, and the reason otherwise. */
  lemma ReportDetails(contacts: seq<Contact>, message: string, replies: seq<Reply>, i: nat)
    requires |replies| == |contacts| && i < |contacts|
    ensures var r := ReportOf(contacts, message, replies);
            var c, rep := contacts[i], replies[i];
            && i < |r.details|
            && r.details[i].name == c.name
            && r.details[i].number == c.phone
            && (r.details[i].status == Success
                <==> !c.phone.Missing? && rep.check.Registered? && rep.send.Delivered?)
            && (r.details[i].status == Success <==> r.details[i].error.None?)
            && (c.phone.Missing? ==> r.details[i].error == Some(MissingPhoneError))
            && (!c.phone.Missing? && rep.check.CheckThrows? ==> r.details[i].error == Some(rep.check.message))
            && (!c.phone.Missing? && rep.check.Unregistered? ==> r.details[i].error == Some(NotRegisteredError))
            && (!c.phone.Missing? && rep.check.Registered? && rep.send.SendThrows?
                ==> r.details[i].error == Some(rep.send.message))
  {
    RunDetails(contacts, message, replies);
  }

  /** A failing contact does not cut the batch short: the details of the contacts after
      it are exactly those those contacts get in a batch of their own. */
  lemma LaterContactsUnaffected(a: seq<Contact>, ra: seq<Reply>, b: seq<Contact>, rb: seq<Reply>,
                                message: string)
    requires |ra| == |a| && |rb| == |b|
    ensures ReportOf(a + b, message, ra + rb).details
            == ReportOf(a, message, ra).details + ReportOf(b, message, rb).details
  {
    RunDetails(a + b, message, ra + rb);
    RunDetails(a, message, ra);
    RunDetails(b, message, rb);
    var d := ReportOf(a + b, message, ra + rb).details;
    var e := ReportOf(a, message, ra).details + ReportOf(b, message, rb).details;
    assert |d| == |e|;
    forall i | 0 <= i < |d| ensures d[i] == e[i] {
      if i < |a| {
        assert (a + b)[i] == a[i] && (ra + rb)[i] == ra[i];
      } else {
        assert (a + b)[i] == b[i - |a|] && (ra + rb)[i] == rb[i - |a|];
      }
    }
  }

  /** Every send in `calls` carries `message` and comes right after the registration check
      of the same chat id. */
  predicate SendsGated(calls: seq<Call>, message: string) {
    forall k :: 0 <= k < |calls| && calls[k].SendMessage? ==>
      && calls[k].content == message
      && k > 0 && calls[k - 1] == IsRegisteredUser(calls[k].chatId)
  }

  /** Sending is gated on registration: in the whole log of library calls, every send
      carries the batch's message and follows the check of its own chat id. */
  lemma {:induction false} SendsFollowChecks(contacts: seq<Contact>, message: string, replies: seq<Reply>)
    requires |replies| == |contacts|
    ensures SendsGated(Run(contacts, message, replies).calls, message)
  {
    if contacts != [] {
      var n := |contacts| - 1;
      SendsFollowChecks(contacts[..n], message, replies[..n]);
      var before := Run(contacts[..n], message, replies[..n]).calls;
      var h := Handle(contacts[n], message, replies[n]);
      var calls := before + h.calls;
      assert Run(contacts, message, replies).calls == calls;
      forall k | 0 <= k < |calls| && calls[k].SendMessage?
        ensures calls[k].content == message && k > 0 && calls[k - 1] == IsRegisteredUser(calls[k].chatId)
      {
        if k >= |before| {
          assert calls[k] == h.calls[k - |before|];
          if !contacts[n].phone.Missing? && replies[n].check.Registered? {
            assert k - |before| == 1;
            assert calls[k - 1] == h.calls[0];
          }
        } else {
          assert calls[k] == before[k] && before[k].SendMessage?;
          assert calls[k - 1] == before[k - 1];
        }
      }
    }
  }

  /** Whether the library is asked to send to this contact: its phone field is present and
      the registration check answered truthy. */
  predicate SendsTo(c: Contact, r: Reply) {
    !c.phone.Missing? && r.check.Registered?
  }

  /** How many of `contacts` are sent to. */
  function CountSendsTo(contacts: seq<Contact>, replies: seq<Reply>): nat
    requires |replies| == |contacts|
  {
    if contacts == [] then 0
    else
      var n := |contacts| - 1;
      CountSendsTo(contacts[..n], replies[..n]) + (if SendsTo(contacts[n], replies[n]) then 1 else 0)
  }

  /** How many sends a log of library calls holds. */
  function CountSendCalls(calls: seq<Call>): nat {
    if calls == [] then 0
    else CountSendCalls(calls[..|calls| - 1]) + (if calls[|calls| - 1].SendMessage? then 1 else 0)
  }

  lemma {:induction false} CountSendCallsAppend(a: seq<Call>, b: seq<Call>)
    ensures CountSendCalls(a + b) == CountSendCalls(a) + CountSendCalls(b)
  {
    if b == [] {
      assert a + b == a;
    } else {
      CountSendCallsAppend(a, b[..|b| - 1]);
      assert (a + b)[..|a + b| - 1] == a + b[..|b| - 1];
    }
  }

  /** The sends one contact contributes to the log. */
  lemma HandleSends(c: Contact, message: string, r: Reply)
    ensures var calls := Handle(c, message, r).calls;
            && CountSendCalls(calls) == (if SendsTo(c, r) then 1 else 0)
            && (forall k :: 0 <= k < |calls| && calls[k].SendMessage? ==>
                  SendsTo(c, r) && calls[k] == SendMessage(ContactChatId(c), message))
            && (SendsTo(c, r) ==> |calls| == 2 && calls[1] == SendMessage(ContactChatId(c), message))
  {
    var calls := Handle(c, message, r).calls;
    if SendsTo(c, r) {
      assert calls[..1][..0] == [] && !calls[0].SendMessage?;
      assert CountSendCalls(calls[..1]) == 0;
      assert calls[1].SendMessage?;
    } else if !c.phone.Missing? {
      assert calls[..0] == [];
    }
  }

  /** `call` is a send of `message` to the chat id of one of `contacts` whose check answered truthy. */
  predicate SendToRegistered(contacts: seq<Contact>, replies: seq<Reply>, message: string, call: Call)
    requires |replies| == |contacts|
  {
    exists i :: 0 <= i < |contacts| && SendsTo(contacts[i], replies[i])
                && call == SendMessage(ContactChatId(contacts[i]), message)
  }

  /** Every send in `calls` is a send of `message` to a contact whose check answered truthy. */
  predicate AllSendsToRegistered(calls: seq<Call>, contacts: seq<Contact>, replies: seq<Reply>, message: string)
    requires |replies| == |contacts|
  {
    forall k :: 0 <= k < |calls| && calls[k].SendMessage? ==>
      SendToRegistered(contacts, replies, message, calls[k])
  }

  /** Sending is gated on registration, for the whole batch: every send in the log is the
      batch's message, to the chat id of a contact whose check answered truthy. */
  lemma {:induction false} SendsOnlyToRegistered(contacts: seq<Contact>, message: string, replies: seq<Reply>)
    requires |replies| == |contacts|
    ensures AllSendsToRegistered(Run(contacts, message, replies).calls, contacts, replies, message)
  {
    if contacts != [] {
      var n := |contacts| - 1;
      var cs, rs := contacts[..n], replies[..n];
      SendsOnlyToRegistered(cs, message, rs);
      HandleSends(contacts[n], message, replies[n]);
      var before := Run(cs, message, rs).calls;
      var h := Handle(contacts[n], message, replies[n]);
      var calls := before + h.calls;
      assert Run(contacts, message, replies).calls == calls;
      forall k | 0 <= k < |calls| && calls[k].SendMessage?
        ensures SendToRegistered(contacts, replies, message, calls[k])
      {
        if k < |before| {
          assert calls[k] == before[k] && before[k].SendMessage?;
          assert SendToRegistered(cs, rs, message, before[k]);
          var i :| 0 <= i < |cs| && SendsTo(cs[i], rs[i]) && before[k] == SendMessage(ContactChatId(cs[i]), message);
          assert cs[i] == contacts[i] && rs[i] == replies[i];
        } else {
          assert calls[k] == h.calls[k - |before|];
        }
      }
    }
  }

  /** Every contact whose check answered truthy is sent the batch's message. */
  lemma {:induction false} RegisteredAreSent(contacts: seq<Contact>, message: string, replies: seq<Reply>)
    requires |replies| == |contacts|
    ensures var calls := Run(contacts, message, replies).calls;
            forall i :: 0 <= i < |contacts| && SendsTo(contacts[i], replies[i]) ==>
              SendMessage(ContactChatId(contacts[i]), message) in calls
  {
    if contacts != [] {
      var n := |contacts| - 1;
      var cs, rs := contacts[..n], replies[..n];
      RegisteredAreSent(cs, message, rs);
      HandleSends(contacts[n], message, replies[n]);
      var before := Run(cs, message, rs).calls;
      var h := Handle(contacts[n], message, replies[n]);
      var calls := before + h.calls;
      assert Run(contacts, message, replies).calls == calls;
      forall i | 0 <= i < |contacts| && SendsTo(contacts[i], replies[i])
        ensures SendMessage(ContactChatId(contacts[i]), message) in calls
      {
        if i < n {
          assert cs[i] == contacts[i] && rs[i] == replies[i];
          assert SendMessage(ContactChatId(cs[i]), message) in before;
        } else {
          assert calls[|before| + 1] == h.calls[1];
        }
      }
    }
  }

  /** There are exactly as many sends in the log as contacts whose check answered truthy. */
  lemma {:induction false} SendCount(contacts: seq<Contact>, message: string, replies: seq<Reply>)
    requires |replies| == |contacts|
    ensures CountSendCalls(Run(contacts, message, replies).calls) == CountSendsTo(contacts, replies)
  {
    if contacts != [] {
      var n := |contacts| - 1;
      SendCount(contacts[..n], message, replies[..n]);
      HandleSends(contacts[n], message, replies[n]);
      CountSendCallsAppend(Run(contacts[..n], message, replies[..n]).calls,
                           Handle(contacts[n], message, replies[n]).calls);
    }
  }

  /** The normalisation of a phone with no digits at all still yields a chat id ("@c.us"),
      and its registration is still checked. */
  lemma DigitlessPhoneIsStillChecked(c: Contact, message: string, r: Reply)
    requires c.phone.Text? && Normalise(c.phone.text) == []
    ensures Handle(c, message, r).calls[0] == IsRegisteredUser(ChatSuffix)
  {
  }

  /** The `/send-messages` handler (without the one-second pause that follows every contact
      except a not-registered one, whose `continue` skips it).
      Returns the report and the calls made into the chat library, in order. */
  method SendMessages(contacts: seq<Contact>, message: string, replies: seq<Reply>)
    returns (report: Report, calls: seq<Call>)
    requires |replies| == |contacts|
    ensures report == ReportOf(contacts, message, replies)
    ensures calls == Run(contacts, message, replies).calls
    ensures report.total == |contacts|
    ensures report.successful + report.failed + report.notRegistered == report.total
    ensures |report.details| == report.total
    ensures forall i :: 0 <= i < |contacts| ==>
              report.details[i].name == contacts[i].name && report.details[i].number == contacts[i].phone
  {
    var total := |contacts|;
    var successful, failed, notRegistered := 0, 0, 0;
    var details: seq<Detail> := [];
    calls := [];
    for i := 0 to |contacts|
      invariant Tally(successful, failed, notRegistered, details, calls)
                == Run(contacts[..i], message, replies[..i])
    {
      ghost var before := Tally(successful, failed, notRegistered, details, calls);
      var contact, reply := contacts[i], replies[i];
      match PhoneToString(contact.phone) {
        case Throws(e) =>
          failed := failed + 1;
          details := details + [Detail(contact.name, contact.phone, Failed, Some(e))];
        case Ok(text) =>
          var number := Normalise(text);
          var chatId := ChatId(number);
          calls := calls + [IsRegisteredUser(chatId)];
          match reply.check {
            case CheckThrows(e) =>
              failed := failed + 1;
              details := details + [Detail(contact.name, contact.phone, Failed, Some(e))];
            case Unregistered =>
              notRegistered := notRegistered + 1;
              details := details + [Detail(contact.name, contact.phone, Failed, Some(NotRegisteredError))];
            case Registered =>
              calls := calls + [SendMessage(chatId, message)];
              match reply.send {
                case SendThrows(e) =>
                  failed := failed + 1;
                  details := details + [Detail(contact.name, contact.phone, Failed, Some(e))];
                case Delivered =>
                  successful := successful + 1;
                  details := details + [Detail(contact.name, contact.phone, Success, None)];
              }
          }
      }
      assert Tally(successful, failed, notRegistered, details, calls)
             == Record(before, Handle(contact, message, reply));
      RunStep(contacts, message, replies, i);
    }
    assert contacts[..|contacts|] == contacts && replies[..|replies|] == replies;
    report := Report(total, successful, failed, notRegistered, details);
    RunDetails(contacts, message, replies);
  }
}
