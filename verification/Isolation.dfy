/** Transactions on one socket do not disturb each other (src/netlink/NlSocket.cpp,
    src/netlink/NlSocket.h): what a handler is handed, and what earlier transactions that ended
    early have left unread. */
module Isolation {
  import opened Core
  import opened Mnl
  import opened NlSocket

  // ----- what a transaction hands over, without the loop -----

  /** The own messages of a run, in order. */
  function OwnOf(ms: seq<Msg>, seqno: u32, pid: u32): seq<Msg> {
    if ms == [] then []
    else (if Own(ms[0], seqno, pid) then [ms[0]] else []) + OwnOf(ms[1..], seqno, pid)
  }

  predicate Terminator(m: Msg) {
    m.typ == NLMSG_ERROR || m.typ == NLMSG_DONE
  }

  /** A handed-over message after which the transaction goes on. */
  predicate GoesOn(own: seq<Msg>, i: nat, goOn: Handler)
    requires i < |own|
  {
    !Terminator(own[i]) && Multi(own[i]) && goOn(own[..i + 1])
  }

  /** `n` own messages are handed over and then nothing more: the first `n` are data, all but
      the last let the transaction go on, and `n` is where it ends or the messages run out. */
  ghost predicate HandsOver(own: seq<Msg>, n: nat, goOn: Handler, end: Option<Outcome>) {
    && n <= |own|
    && (forall i :: 0 <= i < n - 1 ==> GoesOn(own, i, goOn))
    && (n > 0 ==> !Terminator(own[n - 1]))
    && (if n > 0 && !GoesOn(own, n - 1, goOn) then end == Some(Completed)
        else if n == |own| then end == None
        else Terminator(own[n]) && end == Some(EndOf(own[n])))
  }

  /** A terminator ends well, or with the error it carries. */
  function EndOf(m: Msg): Outcome {
    if m.typ == NLMSG_ERROR && ErrorField(m) != 0 then Failed(SystemError(-ErrorField(m))) else Completed
  }

  function EndIn(p: Progress): Option<Outcome> {
    if p.Done? then Some(p.outcome) else None
  }

  lemma {:induction false} ScanStep(ms: seq<Msg>, seqno: u32, pid: u32, goOn: Handler, trace: seq<Msg>)
    requires ms != []
    ensures !Own(ms[0], seqno, pid) ==>
      && Scan(ms, seqno, pid, goOn, trace) == Scan(ms[1..], seqno, pid, goOn, trace)
      && OwnOf(ms, seqno, pid) == OwnOf(ms[1..], seqno, pid)
    ensures Own(ms[0], seqno, pid) ==>
      && OwnOf(ms, seqno, pid) == [ms[0]] + OwnOf(ms[1..], seqno, pid)
      && Scan(ms, seqno, pid, goOn, trace) == (var p := Step(ms[0], goOn, trace);
           if p.Done? then p else Scan(ms[1..], seqno, pid, goOn, p.trace))
  {
    hide Own, Step;
  }

  /** The general form, from the middle of a transaction. */
  lemma {:induction false} ScanHandsOver(ms: seq<Msg>, seqno: u32, pid: u32, goOn: Handler, trace: seq<Msg>)
    requires forall i :: 0 <= i < |trace| ==> GoesOn(trace, i, goOn)
    ensures var p, own := Scan(ms, seqno, pid, goOn, trace), trace + OwnOf(ms, seqno, pid);
            p.trace <= own && HandsOver(own, |p.trace|, goOn, EndIn(p))
    decreases |ms|
  {
    hide Own, ErrorField, Multi;
    var own := trace + OwnOf(ms, seqno, pid);
    if ms == [] {
      assert own == trace;
      if trace != [] {
        assert GoesOn(own, |trace| - 1, goOn);
      }
    } else {
      hide HandsOver, GoesOn, Step;
      ScanStep(ms, seqno, pid, goOn, trace);
      if !Own(ms[0], seqno, pid) {
        ScanHandsOver(ms[1..], seqno, pid, goOn, trace);
      } else {
        var longer := trace + [ms[0]];
        assert own == longer + OwnOf(ms[1..], seqno, pid);
        if Step(ms[0], goOn, trace).More? {
          StepsOn(ms[0], trace, goOn);
          ScanHandsOver(ms[1..], seqno, pid, goOn, longer);
        } else {
          EndsHere(ms[0], trace, OwnOf(ms[1..], seqno, pid), goOn);
        }
      }
    }
  }

  lemma {:induction false} EndsHere(m: Msg, trace: seq<Msg>, more: seq<Msg>, goOn: Handler)
    requires forall i :: 0 <= i < |trace| ==> GoesOn(trace, i, goOn)
    requires Step(m, goOn, trace).Done?
    ensures var p, own := Step(m, goOn, trace), trace + [m] + more;
            p.trace <= own && HandsOver(own, |p.trace|, goOn, EndIn(p))
  {
    hide ErrorField, Multi;
    var longer := trace + [m];
    GoesOnPrefix(trace, longer + more, goOn);
    GoesOnPrefix(longer, longer + more, goOn);
    assert longer[..|longer|] == longer && (longer + more)[|trace|] == m;
    if trace != [] {
      assert GoesOn(trace, |trace| - 1, goOn);
    }
  }

  lemma {:induction false} StepsOn(m: Msg, trace: seq<Msg>, goOn: Handler)
    requires forall i :: 0 <= i < |trace| ==> GoesOn(trace, i, goOn)
    requires Step(m, goOn, trace).More?
    ensures Step(m, goOn, trace).trace == trace + [m]
    ensures forall i :: 0 <= i < |trace + [m]| ==> GoesOn(trace + [m], i, goOn)
  {
    hide ErrorField, Multi;
    var longer := trace + [m];
    GoesOnPrefix(trace, longer, goOn);
    assert longer[..|longer|] == longer;
  }

  lemma {:induction false} GoesOnPrefix(a: seq<Msg>, b: seq<Msg>, goOn: Handler)
    requires a <= b
    ensures forall i :: 0 <= i < |a| ==> GoesOn(b, i, goOn) == GoesOn(a, i, goOn)
  {
    forall i | 0 <= i < |a|
      ensures GoesOn(b, i, goOn) == GoesOn(a, i, goOn)
    {
      assert b[..i + 1] == a[..i + 1];
    }
  }

  /** A handler is handed exactly its own request's messages, in order, up to the first
      terminator, the first message without the multipart flag, or its own refusal. */
  lemma {:induction false} TransactionHandsOver(events: seq<Recv>, seqno: u32, pid: u32, goOn: Handler)
    requires Datagrams(events)
    ensures var r, own := Receive(events, seqno, pid, goOn, []), OwnOf(Flatten(events), seqno, pid);
            && r.trace <= own
            && HandsOver(own, |r.trace|, goOn, if r.outcome == Waiting then None else Some(r.outcome))
  {
    hide Scan, Receive, Flatten, OwnOf, HandsOver, GoesOn;
    ReceiveIsScan(events, seqno, pid, goOn, []);
    ScanHandsOver(Flatten(events), seqno, pid, goOn, []);
    var own := OwnOf(Flatten(events), seqno, pid);
    assert [] + own == own;
    NeverWaiting(Flatten(events), seqno, pid, goOn, []);
  }

  lemma {:induction false} NeverWaiting(ms: seq<Msg>, seqno: u32, pid: u32, goOn: Handler, trace: seq<Msg>)
    ensures var p := Scan(ms, seqno, pid, goOn, trace); p.Done? ==> p.outcome != Waiting
    decreases |ms|
  {
    hide Own, ErrorField, Multi;
    if ms != [] {
      ScanStep(ms, seqno, pid, goOn, trace);
      NeverWaiting(ms[1..], seqno, pid, goOn, if Own(ms[0], seqno, pid) then Step(ms[0], goOn, trace).trace else trace);
    }
  }

  // ----- leftovers -----

  /** No message here belongs to the request numbered `seqno`. */
  predicate Foreign(events: seq<Recv>, seqno: u32, pid: u32) {
    forall i :: 0 <= i < |events| && events[i].Datagram? ==> NoneOwn(Messages(events[i].bytes), seqno, pid)
  }

  predicate NoneOwn(ms: seq<Msg>, seqno: u32, pid: u32) {
    forall i :: 0 <= i < |ms| ==> !Own(ms[i], seqno, pid)
  }

  /** Replies to the request numbered `seqno`: nothing addressed to this socket bears another
      number. Messages addressed elsewhere, failures and empty datagrams may come in between. */
  predicate RepliesTo(events: seq<Recv>, seqno: u32, pid: u32) {
    forall i :: 0 <= i < |events| && events[i].Datagram? ==> Numbered(Messages(events[i].bytes), seqno, pid)
  }

  predicate Numbered(ms: seq<Msg>, seqno: u32, pid: u32) {
    forall i :: 0 <= i < |ms| && ms[i].pid == pid ==> ms[i].seqno == seqno
  }

  lemma {:induction false} RepliesForeign(events: seq<Recv>, seqno: u32, other: u32, pid: u32)
    requires RepliesTo(events, seqno, pid) && other != seqno
    ensures Foreign(events, other, pid)
  {
    hide Messages;
    forall i | 0 <= i < |events| && events[i].Datagram?
      ensures NoneOwn(Messages(events[i].bytes), other, pid)
    {
      assert Numbered(Messages(events[i].bytes), seqno, pid);
    }
  }

  lemma {:induction false} ForeignAppend(a: seq<Recv>, b: seq<Recv>, seqno: u32, pid: u32)
    requires Foreign(a, seqno, pid) && Foreign(b, seqno, pid)
    ensures Foreign(a + b, seqno, pid)
  {
    hide NoneOwn, Messages;
    var c := a + b;
    forall i | 0 <= i < |c| && c[i].Datagram?
      ensures NoneOwn(Messages(c[i].bytes), seqno, pid)
    {
      assert c[i] == if i < |a| then a[i] else b[i - |a|];
    }
  }

  lemma {:induction false} ForeignTail(events: seq<Recv>, n: nat, seqno: u32, pid: u32)
    requires n <= |events| && Foreign(events, seqno, pid)
    ensures Foreign(events[n..], seqno, pid)
  {
    hide NoneOwn, Messages;
    assert forall i :: 0 <= i < |events| - n ==> events[n..][i] == events[n + i];
  }

  lemma {:induction false} ScanForeign(ms: seq<Msg>, seqno: u32, pid: u32, goOn: Handler, trace: seq<Msg>)
    requires NoneOwn(ms, seqno, pid)
    ensures Scan(ms, seqno, pid, goOn, trace) == More(trace)
    decreases |ms|
  {
    hide Own;
    if ms != [] {
      ScanForeign(ms[1..], seqno, pid, goOn, trace);
    }
  }

  /** The first event that is not a datagram with bytes in it. */
  predicate Breaks(e: Recv) {
    e.Failure? || e.bytes == []
  }

  function BreakOf(e: Recv): Outcome
    requires Breaks(e)
  {
    if e.Failure? then Failed(SystemError(e.errno)) else Completed
  }

  function FirstBreak(events: seq<Recv>): Outcome
    requires !Datagrams(events)
    decreases |events|
  {
    if Breaks(events[0]) then BreakOf(events[0])
    else
      assert !Datagrams(events[1..]) by {
        if Datagrams(events[1..]) {
          assert forall i :: 0 < i < |events| ==> events[i] == events[1..][i - 1];
          assert Datagrams(events);
        }
      }
      FirstBreak(events[1..])
  }

  lemma {:induction false} ReceiveStep(events: seq<Recv>, seqno: u32, pid: u32, goOn: Handler, trace: seq<Msg>)
    requires events != []
    ensures Receive(events, seqno, pid, goOn, trace) == (
      var p := RecvOne(events[0], seqno, pid, goOn, trace);
      if p.Done? then Received(p.outcome, p.trace, events[1..]) else Receive(events[1..], seqno, pid, goOn, p.trace))
  {
    hide RecvOne;
  }

  lemma {:induction false} RecvEnds(e: Recv, q: u32, pid: u32, goOn: Handler, trace: seq<Msg>)
    ensures var p := RecvOne(e, q, pid, goOn, trace); p.Done? ==> p.outcome != Waiting
  {
    hide Scan, Messages;
    if e.Datagram? {
      NeverWaiting(Messages(e.bytes), q, pid, goOn, trace);
    }
  }

  /** What is queued behind the end of a transaction does not matter to it. */
  lemma {:induction false} EndsBefore(front: seq<Recv>, back: seq<Recv>, seqno: u32, pid: u32, goOn: Handler, trace: seq<Msg>)
    requires Receive(front, seqno, pid, goOn, trace).outcome != Waiting
    ensures var r := Receive(front, seqno, pid, goOn, trace);
            Receive(front + back, seqno, pid, goOn, trace) == Received(r.outcome, r.trace, r.rest + back)
    decreases |front|
  {
    hide RecvOne, Receive;
    var all := front + back;
    ReceiveNothing(seqno, pid, goOn, trace);
    assert all[0] == front[0] && all[1..] == front[1..] + back;
    ReceiveStep(front, seqno, pid, goOn, trace);
    ReceiveStep(all, seqno, pid, goOn, trace);
    var p := RecvOne(front[0], seqno, pid, goOn, trace);
    if p.More? {
      EndsBefore(front[1..], back, seqno, pid, goOn, p.trace);
    }
  }

  lemma {:induction false} RecvForeign(e: Recv, seqno: u32, pid: u32, goOn: Handler, trace: seq<Msg>)
    requires e.Datagram? ==> NoneOwn(Messages(e.bytes), seqno, pid)
    ensures RecvOne(e, seqno, pid, goOn, trace)
         == if Breaks(e) then Done(trace, BreakOf(e)) else More(trace)
  {
    hide Scan, Messages, NoneOwn;
    if e.Datagram? {
      ScanForeign(Messages(e.bytes), seqno, pid, goOn, trace);
    }
  }

  /** What is left over from before either is read past without a trace, or, where it holds a
      failure or an empty datagram, ends the transaction before any of its own messages. */
  lemma {:induction false} Leftovers(left: seq<Recv>, replies: seq<Recv>, seqno: u32, pid: u32, goOn: Handler, trace: seq<Msg>)
    requires Foreign(left, seqno, pid)
    ensures var r := Receive(left + replies, seqno, pid, goOn, trace);
            if Datagrams(left) then r == Receive(replies, seqno, pid, goOn, trace)
            else r.trace == trace && r.outcome == FirstBreak(left)
    decreases |left|
  {
    hide NoneOwn, Messages, RecvOne, Receive;
    var all := left + replies;
    if left == [] {
      assert all == replies;
    } else {
      assert all[0] == left[0] && all[1..] == left[1..] + replies;
      ReceiveStep(all, seqno, pid, goOn, trace);
      RecvForeign(left[0], seqno, pid, goOn, trace);
      if !Breaks(left[0]) {
        ForeignTail(left, 1, seqno, pid);
        DatagramsStep(left);
        Leftovers(left[1..], replies, seqno, pid, goOn, trace);
      }
    }
  }

  lemma {:induction false} DatagramsStep(events: seq<Recv>)
    requires events != []
    ensures Datagrams(events) <==> !Breaks(events[0]) && Datagrams(events[1..])
  {
    assert forall i :: 0 < i < |events| ==> events[i] == events[1..][i - 1];
    assert forall i :: 0 <= i < |events| - 1 ==> events[1..][i] == events[i + 1];
  }

  /** What a transaction leaves unread is a tail of what was queued. */
  lemma {:induction false} RestIsTail(events: seq<Recv>, seqno: u32, pid: u32, goOn: Handler, trace: seq<Msg>) returns (n: nat)
    ensures n <= |events| && Receive(events, seqno, pid, goOn, trace).rest == events[n..]
    decreases |events|
  {
    hide RecvOne, Receive;
    if events == [] {
      n := 0;
      ReceiveNothing(seqno, pid, goOn, trace);
    } else {
      ReceiveStep(events, seqno, pid, goOn, trace);
      var p := RecvOne(events[0], seqno, pid, goOn, trace);
      n := 1;
      if p.More? {
        var k := RestIsTail(events[1..], seqno, pid, goOn, p.trace);
        n := k + 1;
        assert events[1..][k..] == events[n..];
      }
    }
  }

  lemma {:induction false} ReceiveNothing(seqno: u32, pid: u32, goOn: Handler, trace: seq<Msg>)
    ensures Receive([], seqno, pid, goOn, trace) == Received(Waiting, trace, [])
  {
  }

  // ----- runs of requests -----

  datatype Request = Request(replies: seq<Recv>, goOn: Handler)

  /** One finished or still waiting transaction: what it found unread, and how it went. */
  datatype Turn = Turn(before: seq<Recv>, result: Received)

  /** Requests one after another on one socket, `seqno` being the number last used. A request
      still waiting holds up the rest. */
  function Run(requests: seq<Request>, seqno: u32, pid: u32, inbox: seq<Recv>): seq<Turn>
    decreases |requests|
  {
    if requests == [] then []
    else
      var s := SeqAt(seqno, 1);
      var r := Receive(inbox + requests[0].replies, s, pid, requests[0].goOn, []);
      [Turn(inbox, r)] + if r.outcome == Waiting then [] else Run(requests[1..], s, pid, r.rest)
  }

  /** The request as it would go on a socket with nothing unread. */
  function Alone(request: Request, seqno: u32, pid: u32): Received {
    Receive(request.replies, seqno, pid, request.goOn, [])
  }

  predicate AllReply(requests: seq<Request>, seqno: u32, pid: u32) {
    forall k :: 0 <= k < |requests| ==> RepliesTo(requests[k].replies, SeqAt(seqno, k + 1), pid)
  }

  /** Nothing unread belongs to any of the next `n` requests. */
  predicate Past(inbox: seq<Recv>, seqno: u32, n: nat, pid: u32) {
    forall k :: 1 <= k <= n ==> Foreign(inbox, SeqAt(seqno, k), pid)
  }

  predicate Undisturbed(t: Turn, request: Request, seqno: u32, pid: u32) {
    var alone := Alone(request, seqno, pid);
    if Datagrams(t.before) then t.result == alone
    else t.result.trace == [] && t.result.outcome == FirstBreak(t.before)
  }

  /** Numbers given within one turn of the counter differ. */
  lemma {:induction false} SeqDistinct(seqno: u32, i: nat, j: nat)
    requires i < j < i + 0x1_0000_0000
    ensures SeqAt(seqno, i) != SeqAt(seqno, j)
  {
    var m := 0x1_0000_0000;
    var a, b := (seqno + i) / m, (seqno + j) / m;
    assert SeqAt(seqno, i) == seqno + i - m * a && SeqAt(seqno, j) == seqno + j - m * b;
    assert a <= b <= a + 1;
  }

  lemma {:induction false} SeqShift(seqno: u32, i: nat, j: nat)
    ensures SeqAt(SeqAt(seqno, i), j) == SeqAt(seqno, i + j)
  {
  }

  lemma {:induction false} PastAfter(inbox: seq<Recv>, replies: seq<Recv>, seqno: u32, n: nat, pid: u32, goOn: Handler)
    requires 0 < n < 0x1_0000_0000 && Past(inbox, seqno, n, pid) && RepliesTo(replies, SeqAt(seqno, 1), pid)
    ensures Past(Receive(inbox + replies, SeqAt(seqno, 1), pid, goOn, []).rest, SeqAt(seqno, 1), n - 1, pid)
  {
    hide Foreign, RepliesTo, SeqAt, Receive;
    var s := SeqAt(seqno, 1);
    var cut := RestIsTail(inbox + replies, s, pid, goOn, []);
    forall k | 1 <= k <= n - 1
      ensures Foreign(Receive(inbox + replies, s, pid, goOn, []).rest, SeqAt(s, k), pid)
    {
      var later := SeqAt(s, k);
      SeqShift(seqno, 1, k);
      assert Foreign(inbox, SeqAt(seqno, 1 + k), pid);
      SeqDistinct(seqno, 1, 1 + k);
      RepliesForeign(replies, s, later, pid);
      ForeignAppend(inbox, replies, later, pid);
      ForeignTail(inbox + replies, cut, later, pid);
    }
  }

  /** Transaction isolation: in any run of fewer than 2^32 requests, whatever earlier
      transactions left unread, each goes exactly as it would alone; only a failure or an empty
      datagram left unread can end it, and then before anything is handed over. */
  lemma {:induction false} TransactionIsolation(requests: seq<Request>, seqno: u32, pid: u32, inbox: seq<Recv>)
    requires |requests| < 0x1_0000_0000
    requires AllReply(requests, seqno, pid) && Past(inbox, seqno, |requests|, pid)
    ensures |Run(requests, seqno, pid, inbox)| <= |requests|
    ensures forall k :: 0 <= k < |Run(requests, seqno, pid, inbox)| ==>
      Undisturbed(Run(requests, seqno, pid, inbox)[k], requests[k], SeqAt(seqno, k + 1), pid)
    decreases |requests|
  {
    hide Past, RepliesTo, Undisturbed, SeqAt, Receive;
    if requests != [] {
      var first, s := requests[0], SeqAt(seqno, 1);
      FirstTurn(inbox, first, seqno, |requests|, pid);
      var r := Receive(inbox + first.replies, s, pid, first.goOn, []);
      if r.outcome != Waiting {
        assert RepliesTo(first.replies, SeqAt(seqno, 0 + 1), pid);
        PastAfter(inbox, first.replies, seqno, |requests|, pid, first.goOn);
        TailReplies(requests, seqno, pid);
        TransactionIsolation(requests[1..], s, pid, r.rest);
        var turns, later := Run(requests, seqno, pid, inbox), Run(requests[1..], s, pid, r.rest);
        forall k | 1 <= k < |turns|
          ensures Undisturbed(turns[k], requests[k], SeqAt(seqno, k + 1), pid)
        {
          SeqShift(seqno, 1, k);
          assert turns[k] == later[k - 1];
          assert Undisturbed(later[k - 1], requests[1..][k - 1], SeqAt(s, (k - 1) + 1), pid);
        }
      }
    }
  }

  lemma {:induction false} FirstTurn(inbox: seq<Recv>, request: Request, seqno: u32, n: nat, pid: u32)
    requires n > 0 && Past(inbox, seqno, n, pid)
    ensures var s := SeqAt(seqno, 1);
            Undisturbed(Turn(inbox, Receive(inbox + request.replies, s, pid, request.goOn, [])), request, s, pid)
  {
    hide Foreign, Receive, SeqAt;
    assert Foreign(inbox, SeqAt(seqno, 1), pid);
    Leftovers(inbox, request.replies, SeqAt(seqno, 1), pid, request.goOn, []);
  }

  lemma {:induction false} TailReplies(requests: seq<Request>, seqno: u32, pid: u32)
    requires requests != [] && AllReply(requests, seqno, pid)
    ensures AllReply(requests[1..], SeqAt(seqno, 1), pid)
  {
    hide RepliesTo, SeqAt;
    forall k | 0 <= k < |requests| - 1
      ensures RepliesTo(requests[1..][k].replies, SeqAt(SeqAt(seqno, 1), k + 1), pid)
    {
      SeqShift(seqno, 1, k + 1);
      assert RepliesTo(requests[k + 1].replies, SeqAt(seqno, (k + 1) + 1), pid);
    }
  }

  /** On a fresh socket whose kernel sends nothing but datagrams, every transaction of the run
      is exactly the one it would be alone. */
  lemma {:induction false} FreshSocketIsolation(requests: seq<Request>, pid: u32)
    requires |requests| < 0x1_0000_0000 && AllReply(requests, 0, pid)
    requires forall k :: 0 <= k < |requests| ==> Datagrams(requests[k].replies)
    ensures |Run(requests, 0, pid, [])| <= |requests|
    ensures forall k :: 0 <= k < |Run(requests, 0, pid, [])| ==>
      Run(requests, 0, pid, [])[k].result == Alone(requests[k], SeqAt(0, k + 1), pid)
  {
    hide Run, SeqAt, RepliesTo, Alone, Datagrams;
    NothingPast(0, |requests|, pid);
    TransactionIsolation(requests, 0, pid, []);
    assert Datagrams([]) by { NoDatagrams(); }
    DatagramsStay(requests, 0, pid, []);
  }

  lemma {:induction false} NothingPast(seqno: u32, n: nat, pid: u32)
    ensures Past([], seqno, n, pid)
  {
  }

  lemma {:induction false} NoDatagrams()
    ensures Datagrams([])
  {
  }

  lemma {:induction false} DatagramsStay(requests: seq<Request>, seqno: u32, pid: u32, inbox: seq<Recv>)
    requires Datagrams(inbox) && forall k :: 0 <= k < |requests| ==> Datagrams(requests[k].replies)
    ensures forall k :: 0 <= k < |Run(requests, seqno, pid, inbox)| ==> Datagrams(Run(requests, seqno, pid, inbox)[k].before)
    decreases |requests|
  {
    hide Receive, SeqAt;
    if requests != [] {
      var s := SeqAt(seqno, 1);
      var all := inbox + requests[0].replies;
      var r := Receive(all, s, pid, requests[0].goOn, []);
      var n := RestIsTail(all, s, pid, requests[0].goOn, []);
      assert forall i :: 0 <= i < |all| ==> all[i] == if i < |inbox| then inbox[i] else requests[0].replies[i - |inbox|];
      assert forall i :: 0 <= i < |all| - n ==> all[n..][i] == all[n + i];
      DatagramsStay(requests[1..], s, pid, r.rest);
    }
  }

  /** The family lookup asks for an acknowledgement and ends at its one reply, which is not
      multipart: everything queued after that reply's datagram stays unread. */
  lemma {:induction false} EndsAtSingleReply(datagram: seq<byte>, later: seq<Recv>, seqno: u32, pid: u32)
    requires Messages(datagram) != [] && Own(Messages(datagram)[0], seqno, pid)
    requires !Terminator(Messages(datagram)[0]) && !Multi(Messages(datagram)[0])
    ensures Receive([Datagram(datagram)] + later, seqno, pid, All, []) == Received(Completed, [Messages(datagram)[0]], later)
  {
    hide Messages, Multi, Own, Receive;
    var events := [Datagram(datagram)] + later;
    assert events[0] == Datagram(datagram) && events[1..] == later;
    assert datagram != [] by {
      if datagram == [] {
        NoMessages();
      }
    }
    ReceiveStep(events, seqno, pid, All, []);
    ScanStep(Messages(datagram), seqno, pid, All, []);
    assert [] + [Messages(datagram)[0]] == [Messages(datagram)[0]];
  }
}
