/** The walk over one datagram (src/netlink/NlSocket.cpp:70-103) for a message library that keeps
    what remains in an `int` and compares lengths as signed numbers. Such a walk need not end, so
    it is a machine of single steps. */
module SignedWalk {
  import opened Core
  import opened Mnl
  import opened NlSocket

  const TWO31 := 0x8000_0000
  const TWO32 := 0x1_0000_0000

  /** Conversion of a number to a 32-bit `int`. */
  function ToInt(n: int): (r: int)
    ensures -TWO31 <= r < TWO31
    ensures -TWO31 <= n < TWO31 ==> r == n
    ensures TWO31 <= n < TWO31 + TWO32 ==> r == n - TWO32
    ensures -TWO31 - TWO32 <= n < -TWO31 ==> r == n + TWO32
  {
    var m := n % TWO32;
    if m < TWO31 then m else m - TWO32
  }

  /** A length rounded up to a multiple of 4, in 32 bits. */
  function Aligned(length: u32): (a: u32)
    ensures length <= TWO32 - 4 ==> a == Align4(length)
    ensures length > TWO32 - 4 ==> a == 0
    ensures a % 4 == 0
  {
    (length + 3) % TWO32 / 4 * 4
  }

  // ----- the machine -----

  /** Before a test of the loop: the offset of the cursor and what the `int` says remains. `Outside`
      means that the next header would be read past the end of the datagram. */
  datatype Pass =
    | Going(at: nat, remaining: int, trace: seq<Msg>)
    | Ended(progress: Progress)
    | Outside

  /** What a handler needs besides the datagram. */
  datatype Task = Task(seqno: u32, pid: u32, goOn: Handler)

  /** The message at the cursor, as far as the datagram holds it. */
  function Seen(rest: seq<byte>): Msg
    requires |rest| >= 16
  {
    Msg(GetU16(rest[4..]), GetU16(rest[6..]), GetU32(rest[8..]), GetU32(rest[12..]),
        if NlmsgOk(rest) then MsgBytes(rest) else rest)
  }

  function LengthAt(b: seq<byte>, at: nat): u32
    requires at + 16 <= |b|
  {
    GetU32(b[at..])
  }

  /** What the loop body does with one message. */
  function Body(m: Msg, task: Task, trace: seq<Msg>): Progress {
    if Own(m, task.seqno, task.pid) then Step(m, task.goOn, trace) else More(trace)
  }

  /** The signed test, the body, and the move to the next message. */
  function Onward(b: seq<byte>, task: Task, s: Pass): Pass {
    if !s.Going? then s
    else if s.remaining < 16 then Ended(More(s.trace))
    else if s.at + 16 > |b| then Outside
    else
      var length := LengthAt(b, s.at);
      if length < 16 || ToInt(length) > s.remaining then Ended(More(s.trace))
      else
        match Body(Seen(b[s.at..]), task, s.trace)
        case Done(t, o) => Ended(Done(t, o))
        case More(t) => Going(s.at + Aligned(length), ToInt(s.remaining - Aligned(length)), t)
  }

  /** The pass after n turns. */
  function Turns(b: seq<byte>, task: Task, trace: seq<Msg>, n: nat): Pass {
    if n == 0 then Going(0, ToInt(|b|), trace) else Onward(b, task, Turns(b, task, trace, n - 1))
  }

  /** The walk ends at turn n, having read nothing outside the datagram. */
  predicate EndsAt(b: seq<byte>, task: Task, trace: seq<Msg>, n: nat) {
    Turns(b, task, trace, n).Ended?
  }

  /** The header at the cursor is read, passes the test and is stepped over. */
  predicate StepsOver(b: seq<byte>, task: Task, s: Pass) {
    s.Going? && s.remaining >= 16 && s.at + 16 <= |b| && Onward(b, task, s).Going?
  }

  /** The aligned length moves the cursor on and leaves what remains in the `int`. */
  predicate Advances(b: seq<byte>, s: Pass)
    requires s.Going? && s.at + 16 <= |b|
  {
    0 < Aligned(LengthAt(b, s.at)) <= TWO31 + s.remaining
  }

  predicate AdvancesIfOver(b: seq<byte>, task: Task, s: Pass) {
    StepsOver(b, task, s) ==> Advances(b, s)
  }

  predicate AdvancesAt(b: seq<byte>, task: Task, trace: seq<Msg>, n: nat) {
    AdvancesIfOver(b, task, Turns(b, task, trace, n))
  }

  /** The header at the cursor, if one is looked at, has a length an `int` can hold. */
  predicate Short(b: seq<byte>, s: Pass) {
    s.Going? && s.remaining >= 16 && s.at + 16 <= |b| ==> LengthAt(b, s.at) < TWO31
  }

  predicate ShortAt(b: seq<byte>, task: Task, trace: seq<Msg>, n: nat) {
    Short(b, Turns(b, task, trace, n))
  }

  // ----- one turn -----

  /** What is left agrees with where the cursor is, and fits an `int`. */
  predicate InStep(b: seq<byte>, s: Pass) {
    s.Going? ==> s.remaining == |b| - s.at && -TWO31 <= s.remaining < TWO31
  }

  /** The header at the cursor is stepped over by nothing. */
  predicate Stuck(b: seq<byte>, task: Task, s: Pass) {
    StepsOver(b, task, s) && -TWO31 <= s.remaining < TWO31 && Aligned(LengthAt(b, s.at)) == 0
  }

  lemma {:induction false} TurnKeepsStep(b: seq<byte>, task: Task, s: Pass)
    requires s.Going? && InStep(b, s) && AdvancesIfOver(b, task, s)
    ensures var t := Onward(b, task, s);
      InStep(b, t) && t != Outside && (t.Going? ==> t.remaining < s.remaining)
  {
    hide Seen, Body, LengthAt, Aligned, ToInt;
  }

  /** Such a header is met again at once. */
  lemma {:induction false} TurnStands(b: seq<byte>, task: Task, s: Pass)
    requires task.goOn == All && Stuck(b, task, s)
    ensures var t := Onward(b, task, s);
      t.Going? && t.at == s.at && t.remaining == s.remaining && Stuck(b, task, t)
  {
    hide Seen, LengthAt, Aligned, ToInt, Multi, Own, ErrorField;
  }

  /** A header that takes the `int` through its lower end leaves the datagram. */
  lemma {:induction false} TurnLeaves(b: seq<byte>, task: Task, s: Pass)
    requires StepsOver(b, task, s) && InStep(b, s) && Aligned(LengthAt(b, s.at)) > TWO31 + s.remaining
    ensures Onward(b, task, Onward(b, task, s)) == Outside
  {
    hide Seen, Body, LengthAt, ToInt;
    assert Aligned(LengthAt(b, s.at)) <= TWO32 - 4;
  }

  lemma {:induction false} OverIsGoing(b: seq<byte>, task: Task, s: Pass)
    requires StepsOver(b, task, s)
    ensures s.Going? && s.at + 16 <= |b| && Onward(b, task, s).Going?
  {
  }

  lemma {:induction false} FinalTurn(b: seq<byte>, task: Task, s: Pass)
    requires !s.Going?
    ensures Onward(b, task, s) == s
  {
  }

  // ----- whole walks -----

  /** `Ended` and `Outside` are final. */
  lemma {:induction false} Final(b: seq<byte>, task: Task, trace: seq<Msg>, n: nat, m: nat)
    requires n <= m && !Turns(b, task, trace, n).Going?
    ensures Turns(b, task, trace, m) == Turns(b, task, trace, n)
    decreases m
  {
    hide Onward;
    if n < m {
      Final(b, task, trace, n, m - 1);
      FinalTurn(b, task, Turns(b, task, trace, n));
    }
  }

  /** While every header stepped over advances, cursor and remainder agree. */
  lemma {:induction false} RunKeepsStep(b: seq<byte>, task: Task, trace: seq<Msg>, n: nat)
    requires |b| < TWO31
    requires forall m: nat :: m < n ==> AdvancesAt(b, task, trace, m)
    ensures InStep(b, Turns(b, task, trace, n)) && Turns(b, task, trace, n) != Outside
    decreases n
  {
    hide Onward, AdvancesIfOver, InStep;
    if n == 0 {
      StartsInStep(b, task, trace);
    } else {
      RunKeepsStep(b, task, trace, n - 1);
      var s := Turns(b, task, trace, n - 1);
      assert AdvancesAt(b, task, trace, n - 1);
      if s.Going? {
        TurnKeepsStep(b, task, s);
      } else {
        FinalTurn(b, task, s);
      }
    }
  }

  lemma {:induction false} StartsInStep(b: seq<byte>, task: Task, trace: seq<Msg>)
    requires |b| < TWO31
    ensures Turns(b, task, trace, 0) == Going(0, |b|, trace) && InStep(b, Turns(b, task, trace, 0))
  {
  }

  /** From turn n on, the walk ends: what remains drops with every turn. */
  lemma {:induction false} EndsFrom(b: seq<byte>, task: Task, trace: seq<Msg>, n: nat, left: nat) returns (end: nat)
    requires |b| < TWO31
    requires forall m: nat :: AdvancesAt(b, task, trace, m)
    requires Turns(b, task, trace, n).Going? ==> Turns(b, task, trace, n).remaining + TWO31 <= left
    ensures EndsAt(b, task, trace, end)
    decreases left
  {
    hide Onward, AdvancesIfOver;
    RunKeepsStep(b, task, trace, n);
    RunKeepsStep(b, task, trace, n + 1);
    var s, t := Turns(b, task, trace, n), Turns(b, task, trace, n + 1);
    if s.Ended? {
      return n;
    }
    if t.Ended? {
      return n + 1;
    }
    assert AdvancesAt(b, task, trace, n);
    assert t == Onward(b, task, s);
    TurnKeepsStep(b, task, s);
    end := EndsFrom(b, task, trace, n + 1, left - 1);
  }

  /** A header of aligned length zero is met at every later turn. */
  lemma {:induction false} Stands(b: seq<byte>, task: Task, trace: seq<Msg>, n: nat, m: nat)
    requires task.goOn == All && n <= m && Stuck(b, task, Turns(b, task, trace, n))
    ensures var s, t := Turns(b, task, trace, n), Turns(b, task, trace, m);
      s.Going? && t.Going? && t.at == s.at && t.remaining == s.remaining && Stuck(b, task, t)
    decreases m
  {
    hide Onward, Stuck;
    StuckIsGoing(b, task, Turns(b, task, trace, n));
    if n < m {
      Stands(b, task, trace, n, m - 1);
      TurnStands(b, task, Turns(b, task, trace, m - 1));
      assert Turns(b, task, trace, m) == Onward(b, task, Turns(b, task, trace, m - 1));
    }
  }

  lemma {:induction false} StuckIsGoing(b: seq<byte>, task: Task, s: Pass)
    requires Stuck(b, task, s)
    ensures s.Going?
  {
  }

  /** Where the walk first fails to advance, it stands there for ever or leaves the datagram. */
  lemma {:induction false} Fails(b: seq<byte>, task: Task, trace: seq<Msg>, n: nat, m: nat)
    requires |b| < TWO31 && task.goOn == All && n <= m
    requires forall i: nat :: i < n ==> AdvancesAt(b, task, trace, i)
    requires !AdvancesAt(b, task, trace, n)
    ensures !EndsAt(b, task, trace, m)
  {
    hide Onward, Turns, Aligned;
    var s := Turns(b, task, trace, n);
    RunKeepsStep(b, task, trace, n);
    if Aligned(LengthAt(b, s.at)) == 0 {
      Stands(b, task, trace, n, m);
    } else {
      Leaves(b, task, trace, n, m);
    }
  }

  lemma {:induction false} Leaves(b: seq<byte>, task: Task, trace: seq<Msg>, n: nat, m: nat)
    requires n <= m && InStep(b, Turns(b, task, trace, n)) && StepsOver(b, task, Turns(b, task, trace, n))
    requires Aligned(LengthAt(b, Turns(b, task, trace, n).at)) > TWO31 + Turns(b, task, trace, n).remaining
    ensures !EndsAt(b, task, trace, m) && Turns(b, task, trace, n + 2) == Outside
  {
    hide Onward, StepsOver, InStep;
    var s := Turns(b, task, trace, n);
    TurnLeaves(b, task, s);
    OverIsGoing(b, task, s);
    assert Turns(b, task, trace, n + 1) == Onward(b, task, s);
    assert Turns(b, task, trace, n + 2) == Outside;
    if m >= n + 2 {
      Final(b, task, trace, n + 2, m);
    }
  }

  /** With the handlers of this program, which never stop early: the walk ends inside the datagram
      if and only if every header it steps over has an aligned length above zero and at most 2^31
      above what remains. */
  lemma {:induction false} EndsIffAdvances(b: seq<byte>, task: Task, trace: seq<Msg>)
    requires |b| < TWO31 && task.goOn == All
    ensures (exists n :: EndsAt(b, task, trace, n)) <==> (forall n :: AdvancesAt(b, task, trace, n))
  {
    hide EndsAt, AdvancesAt;
    if forall n :: AdvancesAt(b, task, trace, n) {
      var end := EndsFrom(b, task, trace, 0, |b| + 2 * TWO31);
    }
    if exists n :: EndsAt(b, task, trace, n) {
      var end :| EndsAt(b, task, trace, end);
      forall n ensures AdvancesAt(b, task, trace, n) {
        EndedAdvances(b, task, trace, end, n);
      }
    }
  }

  lemma {:induction false} EndedAdvances(b: seq<byte>, task: Task, trace: seq<Msg>, end: nat, n: nat)
    requires |b| < TWO31 && task.goOn == All && EndsAt(b, task, trace, end)
    ensures forall i: nat :: i <= n ==> AdvancesAt(b, task, trace, i)
    decreases n
  {
    hide Onward, Advances, Turns;
    if n > 0 {
      EndedAdvances(b, task, trace, end, n - 1);
    }
    if !AdvancesAt(b, task, trace, n) {
      if n <= end {
        Fails(b, task, trace, n, end);
      } else {
        Final(b, task, trace, end, n);
      }
    }
  }

  // ----- lengths an int can hold -----

  /** One turn at a header that is short: the walk over unsigned lengths does the same. */
  lemma {:induction false} ShortTurn(b: seq<byte>, task: Task, s: Pass)
    requires s.Going? && s.at <= |b| && InStep(b, s) && Short(b, s)
    ensures var rest, t := b[s.at..], Onward(b, task, s);
      if !NlmsgOk(rest) then t == Ended(More(s.trace))
      else
        match Body(FirstMsg(rest), task, s.trace)
        case Done(u, o) => t == Ended(Done(u, o))
        case More(u) => t == Going(s.at + Align4(GetU32(rest)), s.remaining - Align4(GetU32(rest)), u)
  {
    hide Body, Aligned, ToInt, MsgBytes, GetU32, GetU16, Align4;
  }

  lemma {:induction false} ScanBody(ms: seq<Msg>, task: Task, trace: seq<Msg>)
    requires ms != []
    ensures var p := Body(ms[0], task, trace);
      Scan(ms, task.seqno, task.pid, task.goOn, trace)
        == if p.Done? then p else Scan(ms[1..], task.seqno, task.pid, task.goOn, p.trace)
  {
    hide Step, Own;
  }

  /** Past the end nothing is left to visit. */
  lemma {:induction false} PastEnd(b: seq<byte>, task: Task, s: Pass)
    requires s.Going? && s.remaining < 16
    ensures Onward(b, task, s) == Ended(More(s.trace))
  {
  }

  /** From turn n on, with short lengths only, the walk computes the scan of the messages left. */
  lemma {:induction false} ScansFrom(b: seq<byte>, task: Task, trace: seq<Msg>, n: nat) returns (end: nat)
    requires forall m: nat :: m >= n ==> ShortAt(b, task, trace, m)
    requires InStep(b, Turns(b, task, trace, n)) && Turns(b, task, trace, n).Going? && Turns(b, task, trace, n).at <= |b|
    ensures var s := Turns(b, task, trace, n);
      Turns(b, task, trace, end) == Ended(Scan(Messages(b[s.at..]), task.seqno, task.pid, task.goOn, s.trace))
    decreases |b| - Turns(b, task, trace, n).at
  {
    hide Onward, Body, Scan, Messages, FirstMsg, Short, Align4, GetU32;
    var s, t := Turns(b, task, trace, n), Turns(b, task, trace, n + 1);
    var rest := b[s.at..];
    assert ShortAt(b, task, trace, n);
    assert t == Onward(b, task, s);
    ShortTurn(b, task, s);
    end := n + 1;
    if !NlmsgOk(rest) {
      MessagesEnd(rest);
      ScanNothing(task.seqno, task.pid, task.goOn, s.trace);
    } else {
      MessagesStep(rest);
      ScanBody(Messages(rest), task, s.trace);
      if t.Going? {
        var step := Align4(GetU32(rest));
        if step <= |rest| {
          assert rest[step..] == b[t.at..];
          end := ScansFrom(b, task, trace, n + 1);
        } else {
          PastEnd(b, task, t);
          end := n + 2;
          assert Turns(b, task, trace, n + 2) == Onward(b, task, t);
          NoMessages();
          ScanNothing(task.seqno, task.pid, task.goOn, t.trace);
        }
      }
    }
  }

  /** When every header the walk looks at has a length below 2^31, it visits exactly the messages
      of the datagram and ends as their scan does, for any handler. */
  lemma {:induction false} ShortWalkScans(b: seq<byte>, task: Task, trace: seq<Msg>) returns (end: nat)
    requires |b| < TWO31 && forall n :: ShortAt(b, task, trace, n)
    ensures Turns(b, task, trace, end) == Ended(Scan(Messages(b), task.seqno, task.pid, task.goOn, trace))
  {
    hide Onward, Scan, Messages, Turns, ShortAt;
    StartsInStep(b, task, trace);
    assert b[0..] == b;
    end := ScansFrom(b, task, trace, 0);
  }

  // ----- datagrams as a kernel packs them -----

  /** Every header the walk over unsigned lengths can look at has a length an `int` can hold. */
  predicate AllShort(b: seq<byte>)
    decreases |b|
  {
    |b| >= 16 ==> GetU32(b) < TWO31 && (NlmsgOk(b) ==> AllShort(NextMsg(b)))
  }

  /** What the pass has in front of it is short as well. */
  predicate Ahead(b: seq<byte>, s: Pass) {
    s.Going? && s.remaining >= 16 ==> InStep(b, s) && AllShort(b[s.at..])
  }

  lemma {:induction false} AheadTurn(b: seq<byte>, task: Task, s: Pass)
    requires Ahead(b, s)
    ensures Ahead(b, Onward(b, task, s))
  {
    hide Onward, Body, AllShort, Align4, GetU32, FirstMsg;
    if !s.Going? {
      FinalTurn(b, task, s);
    } else if s.remaining < 16 {
      PastEnd(b, task, s);
    } else {
      var rest, t := b[s.at..], Onward(b, task, s);
      ShortHead(rest);
      ShortTurn(b, task, s);
      if t.Going? && t.remaining >= 16 {
        assert rest[Align4(GetU32(rest))..] == b[t.at..];
      }
    }
  }

  lemma {:induction false} ShortHead(b: seq<byte>)
    requires |b| >= 16 && AllShort(b)
    ensures GetU32(b) < TWO31 && (NlmsgOk(b) ==> AllShort(NextMsg(b)))
  {
  }

  lemma {:induction false} ShortThroughout(b: seq<byte>, task: Task, trace: seq<Msg>, n: nat)
    requires |b| < TWO31 && AllShort(b)
    ensures Ahead(b, Turns(b, task, trace, n)) && ShortAt(b, task, trace, n)
    decreases n
  {
    hide Onward, AllShort, GetU32;
    if n == 0 {
      StartsInStep(b, task, trace);
      assert b[0..] == b;
    } else {
      ShortThroughout(b, task, trace, n - 1);
      AheadTurn(b, task, Turns(b, task, trace, n - 1));
    }
    var s := Turns(b, task, trace, n);
    if s.Going? && s.remaining >= 16 {
      ShortHead(b[s.at..]);
    }
  }

  lemma {:induction false} PackIsShort(ms: seq<Msg>)
    requires AllWellFormed(ms) && |Pack(ms)| < TWO31
    ensures AllShort(Pack(ms))
    decreases |ms|
  {
    hide WellFormed, FirstMsg, NextMsg, GetU32;
    if ms != [] {
      PackFirst(ms[0], Pack(ms[1..]));
      PackIsShort(ms[1..]);
    }
  }

  /** A datagram packed from well-formed messages is walked message by message, signed or not. */
  lemma {:induction false} PackedWalkScans(ms: seq<Msg>, task: Task, trace: seq<Msg>) returns (end: nat)
    requires AllWellFormed(ms) && |Pack(ms)| < TWO31
    ensures Turns(Pack(ms), task, trace, end) == Ended(Scan(ms, task.seqno, task.pid, task.goOn, trace))
  {
    hide AllWellFormed, Pack, Turns, AllShort, Scan, Messages, ShortAt;
    PackIsShort(ms);
    MessagesOfPack(ms);
    forall n ensures ShortAt(Pack(ms), task, trace, n) {
      ShortThroughout(Pack(ms), task, trace, n);
    }
    end := ShortWalkScans(Pack(ms), task, trace);
  }

  // ----- datagrams on which it does not end -----

  /** A datagram that is one header: a length, type 16, some flags, number 7 and port 9. */
  function Header(length: seq<byte>, flags: byte): (b: seq<byte>)
    requires |length| == 4
    ensures |b| == 16
  {
    length + [16, 0, flags, 0, 7, 0, 0, 0, 9, 0, 0, 0]
  }

  /** What a length of 2^32 - 1 says. */
  const ALL_ONES: seq<byte> := [255, 255, 255, 255]

  lemma {:induction false} HeaderFields(length: seq<byte>, flags: byte)
    requires |length| == 4 && GetU32(length) >= TWO31
    ensures var b := Header(length, flags);
      LengthAt(b, 0) == GetU32(length) && b[0..] == b && Seen(b) == Msg(16, flags, 7, 9, b)
  {
    var b := Header(length, flags);
    assert b[0..] == b;
    assert b[4..][0] == 16 && b[6..][0] == flags && b[8..][0] == 7 && b[12..][0] == 9;
  }

  /** The failing input: sixteen bytes that start with FF FF FF FF and carry another transaction's
      number. No turn changes the cursor or what remains. */
  lemma {:induction false} ForeignStands(task: Task, trace: seq<Msg>, n: nat)
    requires task.seqno != 7
    ensures Turns(Header(ALL_ONES, 0), task, trace, n) == Going(0, 16, trace)
    decreases n
  {
    hide Header, Seen, LengthAt;
    HeaderFields(ALL_ONES, 0);
    if n > 0 {
      ForeignStands(task, trace, n - 1);
    }
  }

  /** With the transaction's own number and the multipart flag, the same message is handed over
      once at every turn. */
  lemma {:induction false} OwnRepeats(trace: seq<Msg>, n: nat)
    ensures var b := Header(ALL_ONES, 2);
      Turns(b, Task(7, 9, All), trace, n) == Going(0, 16, trace + seq(n, _ => Seen(b)))
    decreases n
  {
    hide Header, Seen, LengthAt;
    HeaderFields(ALL_ONES, 2);
    var b := Header(ALL_ONES, 2);
    if n == 0 {
      assert trace + seq(n, _ => Seen(b)) == trace;
    } else {
      OwnRepeats(trace, n - 1);
      assert trace + seq(n - 1, _ => Seen(b)) + [Seen(b)] == trace + seq(n, _ => Seen(b));
    }
  }

  /** A length of 2^31 + 2^30 takes the walk out of the datagram at the next turn. */
  lemma {:induction false} WrapLeaves(task: Task, trace: seq<Msg>)
    requires task.seqno != 7
    ensures Turns(Header([0, 0, 0, 192], 0), task, trace, 2) == Outside
  {
    hide Header, Seen, LengthAt;
    HeaderFields([0, 0, 0, 192], 0);
    assert Turns(Header([0, 0, 0, 192], 0), task, trace, 1) == Going(TWO31 + TWO31 / 2, 16 + TWO31 / 2, trace);
  }
}
