/** One session (a run of one node): a counter, an in-memory tail of the journal
    and the append-only file behind it. */
module Session {
  const SESSION_BUFFER := 500

  /** Ephemeral events are numbered like all others but never journalled. */
  datatype Event = Ephemeral(body: nat) | Durable(body: nat)

  datatype Envelope = Envelope(seqNo: nat, runToken: nat, event: Event)

  /** A line of the journal file; lines that do not parse are skipped. */
  datatype Line = Entry(envelope: Envelope) | Garbage

  function Parse(lines: seq<Line>): seq<Envelope> {
    if lines == [] then [] else
      var init := lines[..|lines| - 1];
      match lines[|lines| - 1]
      case Entry(e) => Parse(init) + [e]
      case Garbage => Parse(init)
  }

  /** The entries numbered `k` or more, in order. */
  function From(es: seq<Envelope>, k: nat): seq<Envelope> {
    if es == [] then [] else
      var init := es[..|es| - 1];
      var last := es[|es| - 1];
      From(init, k) + if last.seqNo >= k then [last] else []
  }

  function Tail(es: seq<Envelope>): (t: seq<Envelope>) {
    if |es| > SESSION_BUFFER then es[|es| - SESSION_BUFFER..] else es
  }

  predicate Increasing(es: seq<Envelope>) {
    forall i, j | 0 <= i < j < |es| :: es[i].seqNo < es[j].seqNo
  }

  function NextSeq(es: seq<Envelope>): nat {
    if es == [] then 0 else es[|es| - 1].seqNo + 1
  }

  lemma ParseAppend(lines: seq<Line>, l: Line)
    ensures Parse(lines + [l]) == Parse(lines) + if l.Entry? then [l.envelope] else []
  {
    assert (lines + [l])[..|lines|] == lines;
  }

  lemma FromAppend(es: seq<Envelope>, e: Envelope, k: nat)
    ensures From(es + [e], k) == From(es, k) + if e.seqNo >= k then [e] else []
  {
    assert (es + [e])[..|es|] == es;
  }

  lemma {:induction false} FromConcat(a: seq<Envelope>, b: seq<Envelope>, k: nat)
    ensures From(a + b, k) == From(a, k) + From(b, k)
  {
    if b == [] {
      assert a + b == a;
    } else {
      var init := b[..|b| - 1];
      FromConcat(a, init, k);
      assert a + b == (a + init) + [b[|b| - 1]];
      FromAppend(a + init, b[|b| - 1], k);
    }
  }

  lemma {:induction false} FromNothingIff(es: seq<Envelope>, k: nat)
    ensures From(es, k) == [] <==> forall e | e in es :: e.seqNo < k
  {
    if es != [] {
      var init, last := es[..|es| - 1], es[|es| - 1];
      FromNothingIff(init, k);
      assert es == init + [last];
      assert last in es;
    }
  }

  /** What the buffer has let go of. */
  function Dropped(es: seq<Envelope>): seq<Envelope> {
    if |es| > SESSION_BUFFER then es[..|es| - SESSION_BUFFER] else []
  }

  /** The buffer holds the last 500 entries, or all there are. */
  lemma TailIsLast(es: seq<Envelope>)
    ensures |Tail(es)| == if |es| > 500 then 500 else |es|
    ensures es == es[..|es| - |Tail(es)|] + Tail(es) && Dropped(es) == es[..|es| - |Tail(es)|]
  {
  }

  /** The buffer answers for the whole journal exactly when `k` is past everything
      it has let go of. */
  lemma TailAnswersIff(es: seq<Envelope>, k: nat)
    ensures From(Tail(es), k) == From(es, k) <==> forall e | e in Dropped(es) :: e.seqNo < k
  {
    assert es == Dropped(es) + Tail(es);
    FromConcat(Dropped(es), Tail(es), k);
    FromNothingIff(Dropped(es), k);
    assert |From(Dropped(es), k) + From(Tail(es), k)| == |From(Dropped(es), k)| + |From(Tail(es), k)|;
  }

  /** With rising numbers the buffer answers for the whole journal as soon as `k` is
      not older than its first entry. */
  lemma TailAnswersForAll(es: seq<Envelope>, k: nat)
    requires Increasing(es)
    requires Tail(es) == [] || Tail(es)[0].seqNo <= k
    ensures From(Tail(es), k) == From(es, k)
  {
    forall e | e in Dropped(es)
      ensures e.seqNo < k
    {
      var i :| 0 <= i < |Dropped(es)| && es[i] == e;
      assert es[i].seqNo < es[|Dropped(es)|].seqNo;
    }
    TailAnswersIff(es, k);
  }

  // ------------------------------------------------------------ implementation

  class Disk {
    var lines: seq<Line>

    constructor (lines: seq<Line>)
      ensures this.lines == lines
    {
      this.lines := lines;
    }

    method ReadAll() returns (journal: seq<Envelope>)
      ensures journal == Parse(lines)
    {
      journal := [];
      for i := 0 to |lines|
        invariant journal == Parse(lines[..i])
      {
        ParseAppend(lines[..i], lines[i]);
        assert lines[..i + 1] == lines[..i] + [lines[i]];
        if lines[i].Entry? {
          journal := journal + [lines[i].envelope];
        }
      }
      assert lines[..|lines|] == lines;
    }
  }

  method Filter(es: seq<Envelope>, k: nat) returns (r: seq<Envelope>)
    ensures r == From(es, k)
  {
    r := [];
    for i := 0 to |es|
      invariant r == From(es[..i], k)
    {
      FromAppend(es[..i], es[i], k);
      assert es[..i + 1] == es[..i] + [es[i]];
      if es[i].seqNo >= k {
        r := r + [es[i]];
      }
    }
    assert es[..|es|] == es;
  }

  class Session {
    const disk: Disk
    const runToken: nat
    var nextSeq: nat
    var journal: seq<Envelope>

    ghost function Entries(): seq<Envelope>
      reads disk
    {
      Parse(disk.lines)
    }

    ghost predicate Valid()
      reads this, disk
    {
      && journal == Tail(Entries())
      && NextSeq(Entries()) <= nextSeq
    }

    /** The session seen as one unbounded journal. */
    ghost function Abstract(): Log
      reads this, disk
    {
      Log(nextSeq, runToken, Entries())
    }

    /** Opens the session, after a restart as well as the first time. */
    constructor (disk: Disk, freshToken: nat)
      ensures Valid() && this.disk == disk
      ensures Abstract() == Opened(Parse(disk.lines), freshToken)
    {
      var all := disk.ReadAll();
      var tail := all;
      if |tail| > SESSION_BUFFER {
        tail := tail[|tail| - SESSION_BUFFER..];
      }
      this.disk := disk;
      nextSeq := if all == [] then 0 else all[|all| - 1].seqNo + 1;
      runToken := if tail == [] then freshToken else tail[|tail| - 1].runToken;
      journal := tail;
    }

    method Append(event: Event) returns (envelope: Envelope)
      requires Valid()
      modifies this, disk
      ensures Valid()
      ensures envelope == Envelope(old(nextSeq), runToken, event)
      ensures Abstract() == Appended(old(Abstract()), event)
      ensures disk.lines == old(disk.lines) + if event.Durable? then [Entry(envelope)] else []
    {
      envelope := Envelope(nextSeq, runToken, event);
      nextSeq := nextSeq + 1;
      if event.Durable? {
        journal := journal + [envelope];
        if |journal| > SESSION_BUFFER {
          journal := journal[|journal| - SESSION_BUFFER..];
        }
        ParseAppend(disk.lines, Entry(envelope));
        disk.lines := disk.lines + [Entry(envelope)];
      }
    }

    /** Whichever of the buffer and the file serves it, the answer is that of the
        complete journal, as it always is when its numbers rise; else exactly when
        the file is asked or the buffer has let go of nothing that is wanted. */
    method ReplayFrom(from: nat) returns (r: seq<Envelope>)
      requires Valid()
      ensures Increasing(Entries()) ==> r == From(Entries(), from)
      ensures r == From(Entries(), from) <==>
              || (journal != [] && from < journal[0].seqNo)
              || forall e | e in Dropped(Entries()) :: e.seqNo < from
    {
      TailAnswersIff(Entries(), from);
      if journal == [] || journal[0].seqNo <= from {
        if Increasing(Entries()) {
          TailAnswersForAll(Entries(), from);
        }
        r := Filter(journal, from);
      } else {
        r := ReplayFromDisk(from);
      }
    }

    method ReplayFromDisk(from: nat) returns (r: seq<Envelope>)
      ensures r == From(Entries(), from)
    {
      var all := disk.ReadAll();
      r := Filter(all, from);
    }
  }

  // ---------------------------------------------------- reference: one journal

  /** A session that keeps its whole journal in memory. */
  datatype Log = Log(nextSeq: nat, runToken: nat, entries: seq<Envelope>)

  datatype Op = Append(event: Event) | Restart(freshToken: nat) | Replay(from: nat)

  function Opened(entries: seq<Envelope>, freshToken: nat): Log {
    Log(NextSeq(entries), if entries == [] then freshToken else entries[|entries| - 1].runToken, entries)
  }

  function Appended(l: Log, event: Event): Log {
    Log(l.nextSeq + 1, l.runToken,
        l.entries + if event.Durable? then [Envelope(l.nextSeq, l.runToken, event)] else [])
  }

  function After(l: Log, op: Op): Log {
    match op
    case Append(e) => Appended(l, e)
    case Restart(t) => Opened(l.entries, t)
    case Replay(_) => l
  }

  function AfterAll(l: Log, ops: seq<Op>): Log {
    if ops == [] then l else After(AfterAll(l, ops[..|ops| - 1]), ops[|ops| - 1])
  }

  /** What the replays in `ops` answer. */
  function Replies(l: Log, ops: seq<Op>): seq<seq<Envelope>> {
    if ops == [] then [] else
      var init := ops[..|ops| - 1];
      var op := ops[|ops| - 1];
      Replies(l, init) + if op.Replay? then [From(AfterAll(l, init).entries, op.from)] else []
  }

  /** Strictly increasing numbers below the counter. */
  predicate GoodLog(l: Log) {
    Increasing(l.entries) && NextSeq(l.entries) <= l.nextSeq
  }

  predicate OneToken(l: Log) {
    forall e | e in l.entries :: e.runToken == l.runToken
  }

  lemma GoodLogStep(l: Log, op: Op)
    requires GoodLog(l)
    ensures GoodLog(After(l, op)) && l.entries <= After(l, op).entries
    ensures OneToken(l) ==> OneToken(After(l, op))
  {
    if op.Append? && op.event.Durable? {
      var e := Envelope(l.nextSeq, l.runToken, op.event);
      forall i | 0 <= i < |l.entries|
        ensures l.entries[i].seqNo < e.seqNo
      {
        assert l.entries[i].seqNo <= l.entries[|l.entries| - 1].seqNo;
      }
    }
  }

  /** Over any run the journal stays strictly increasing, no entry is ever changed
      or dropped, and a run keeps its token across restarts. */
  lemma {:induction false} JournalOnlyGrows(l: Log, ops: seq<Op>)
    requires GoodLog(l)
    ensures GoodLog(AfterAll(l, ops)) && l.entries <= AfterAll(l, ops).entries
    ensures OneToken(l) ==> OneToken(AfterAll(l, ops))
  {
    if ops != [] {
      var init := ops[..|ops| - 1];
      JournalOnlyGrows(l, init);
      GoodLogStep(AfterAll(l, init), ops[|ops| - 1]);
    }
  }

  lemma OneMoreOp(l: Log, ops: seq<Op>, op: Op)
    ensures AfterAll(l, []) == l && AfterAll(l, ops + [op]) == After(AfterAll(l, ops), op)
    ensures Replies(l, ops + [op]) ==
            Replies(l, ops) + if op.Replay? then [From(AfterAll(l, ops).entries, op.from)] else []
  {
    assert (ops + [op])[..|ops|] == ops;
  }

  function Events(es: seq<Envelope>): (r: seq<Event>)
    ensures |r| == |es| && forall i | 0 <= i < |es| :: r[i] == es[i].event
  {
    seq(|es|, i requires 0 <= i < |es| => es[i].event)
  }

  /** The durable events of a run of operations, in order. */
  function Journalled(ops: seq<Op>): seq<Event> {
    if ops == [] then []
    else
      var op := ops[|ops| - 1];
      Journalled(ops[..|ops| - 1]) + if op.Append? && op.event.Durable? then [op.event] else []
  }

  /** The journal holds exactly what was appended to be kept, in the order it came. */
  lemma {:induction false} NothingIsLostOrAdded(l: Log, ops: seq<Op>)
    ensures Events(AfterAll(l, ops).entries) == Events(l.entries) + Journalled(ops)
  {
    if ops == [] {
      assert Journalled([]) == [];
    } else {
      var init, op := ops[..|ops| - 1], ops[|ops| - 1];
      NothingIsLostOrAdded(l, init);
      EventsGrow(AfterAll(l, init), op);
      OneMoreOp(l, init, op);
      assert ops == init + [op];
    }
  }

  lemma EventsGrow(l: Log, op: Op)
    ensures Events(After(l, op).entries) ==
            Events(l.entries) + if op.Append? && op.event.Durable? then [op.event] else []
  {
  }

  /** One operation, on the session or by opening it again. */
  method Perform(session: Session, op: Op) returns (next: Session, reply: seq<seq<Envelope>>)
    requires session.Valid() && Increasing(session.Entries())
    modifies session, session.disk
    ensures next.Valid() && next.disk == session.disk && (next == session || fresh(next))
    ensures next.Abstract() == After(old(session.Abstract()), op)
    ensures reply == if op.Replay? then [From(old(session.Entries()), op.from)] else []
  {
    next, reply := session, [];
    match op {
      case Append(e) =>
        var envelope := session.Append(e);
      case Restart(t) =>
        next := new Session(session.disk, t);
      case Replay(k) =>
        var r := session.ReplayFrom(k);
        reply := [r];
    }
  }

  /** The bounded session behaves like the unbounded one over any run of
      appends, restarts and replays. */
  method Live(disk: Disk, freshToken: nat, ops: seq<Op>) returns (session: Session, replies: seq<seq<Envelope>>)
    requires Increasing(Parse(disk.lines))
    modifies disk
    ensures session.Valid() && session.disk == disk && fresh(session)
    ensures session.Abstract() == AfterAll(old(Opened(Parse(disk.lines), freshToken)), ops)
    ensures replies == Replies(old(Opened(Parse(disk.lines), freshToken)), ops)
  {
    ghost var l := Opened(Parse(disk.lines), freshToken);
    session := new Session(disk, freshToken);
    replies := [];
    for i := 0 to |ops|
      invariant session.Valid() && session.disk == disk && fresh(session)
      invariant session.Abstract() == AfterAll(l, ops[..i])
      invariant replies == Replies(l, ops[..i])
    {
      assert ops[..i + 1] == ops[..i] + [ops[i]] && ops[..i + 1][..i] == ops[..i];
      JournalOnlyGrows(l, ops[..i]);
      var reply;
      session, reply := Perform(session, ops[i]);
      replies := replies + reply;
    }
    assert ops[..|ops|] == ops;
  }

  // ----------------------------------------------------------- numbers handed out

  /** Every number given to an event, ephemeral ones included. */
  function Issued(l: Log, ops: seq<Op>): seq<int>
    decreases |ops|
  {
    if ops == [] then [] else
      (if ops[0].Append? then [l.nextSeq] else []) + Issued(After(l, ops[0]), ops[1..])
  }

  predicate Rising(ns: seq<int>) {
    forall i | 0 <= i < |ns| - 1 :: ns[i] < ns[i + 1]
  }

  predicate Appends(ops: seq<Op>) {
    exists i | 0 <= i < |ops| :: ops[i].Append?
  }

  /** A restart right after an ephemeral event, with another event still to come. */
  predicate ForgetsANumber(l: Log, ops: seq<Op>)
    decreases |ops|
  {
    ops != [] &&
    (|| (ops[0].Restart? && l.nextSeq > NextSeq(l.entries) && Appends(ops[1..]))
     || ForgetsANumber(After(l, ops[0]), ops[1..]))
  }

  lemma {:induction false} FirstIssued(l: Log, ops: seq<Op>)
    requires Appends(ops) && NextSeq(l.entries) == l.nextSeq
    ensures Issued(l, ops) != [] && Issued(l, ops)[0] == l.nextSeq
    decreases |ops|
  {
    if !ops[0].Append? {
      var i :| 0 <= i < |ops| && ops[i].Append?;
      assert ops[1..][i - 1].Append?;
      FirstIssued(After(l, ops[0]), ops[1..]);
    }
  }

  lemma {:induction false} NothingIssued(l: Log, ops: seq<Op>)
    requires !Appends(ops)
    ensures Issued(l, ops) == [] && !ForgetsANumber(l, ops)
    decreases |ops|
  {
    if ops != [] {
      assert forall i | 0 <= i < |ops[1..]| :: ops[1..][i] == ops[i + 1];
      NothingIssued(After(l, ops[0]), ops[1..]);
    }
  }

  lemma {:induction false} RisingAbove(l: Log, ops: seq<Op>)
    requires NextSeq(l.entries) <= l.nextSeq
    ensures Rising([l.nextSeq - 1] + Issued(l, ops)) <==> !ForgetsANumber(l, ops)
    decreases |ops|
  {
    if ops != [] {
      var l' := After(l, ops[0]);
      var rest := Issued(l', ops[1..]);
      RisingAbove(l', ops[1..]);
      if ops[0].Append? {
        RisingCons(l.nextSeq - 1, [l.nextSeq] + rest);
        return;
      }
      assert Issued(l, ops) == rest;
      if ops[0].Restart? && l.nextSeq > NextSeq(l.entries) {
        if Appends(ops[1..]) {
          FirstIssued(l', ops[1..]);
          RisingCons(l.nextSeq - 1, rest);
        } else {
          NothingIssued(l', ops[1..]);
        }
      }
    }
  }

  lemma RisingCons(n: int, ns: seq<int>)
    requires ns != []
    ensures Rising([n] + ns) <==> n < ns[0] && Rising(ns)
  {
    var all := [n] + ns;
    if Rising(all) {
      assert all[0] < all[1];
      forall i | 0 <= i < |ns| - 1
        ensures ns[i] < ns[i + 1]
      {
        assert all[i + 1] < all[i + 2];
      }
    }
  }

  /** Numbers rise over a whole run exactly when no restart follows an ephemeral
      event: only journalled numbers survive a restart. */
  lemma NumbersRiseIff(entries: seq<Envelope>, freshToken: nat, ops: seq<Op>)
    ensures Rising(Issued(Opened(entries, freshToken), ops)) <==> !ForgetsANumber(Opened(entries, freshToken), ops)
  {
    var l := Opened(entries, freshToken);
    RisingAbove(l, ops);
    if Appends(ops) {
      FirstIssued(l, ops);
      RisingCons(l.nextSeq - 1, Issued(l, ops));
    } else {
      NothingIssued(l, ops);
    }
  }

  // ---------------------------------------------------------------------- host

  datatype SeedResult = Seeded | AlreadyOpen

  /** The room of one node on a host. */
  class Room {
    const disk: Disk
    var session: Session?

    ghost predicate Valid()
      reads this, disk, session
    {
      session != null ==> session.disk == disk && session.Valid()
    }

    constructor (disk: Disk)
      ensures Valid() && this.disk == disk && session == null
    {
      this.disk := disk;
      session := null;
    }

    /** An inherited journal can only be put under a session that is not open. */
    method SeedJournal(lines: seq<Line>) returns (r: SeedResult)
      requires Valid()
      modifies disk
      ensures Valid()
      ensures r == if session != null then AlreadyOpen else Seeded
      ensures disk.lines == if session != null then old(disk.lines) else lines
    {
      if session != null {
        return AlreadyOpen;
      }
      disk.lines := lines;
      return Seeded;
    }

    method GetOrOpen(freshToken: nat) returns (s: Session)
      requires Valid()
      modifies this
      ensures Valid() && session == s && s.disk == disk
      ensures old(session) != null ==> s == old(session)
      ensures old(session) == null ==> fresh(s) && s.Abstract() == Opened(Parse(disk.lines), freshToken)
    {
      if session == null {
        var started := new Session(disk, freshToken);
        session := started;
      }
      s := session;
    }

    /** A host that inherits a journal carries on where the other one stopped. */
    method Inherit(lines: seq<Line>, freshToken: nat, from: nat) returns (history: seq<Envelope>, s: Session)
      requires Valid() && session == null
      modifies this, disk
      ensures Valid() && session == s && fresh(s)
      ensures Increasing(Parse(lines)) ==> history == From(Parse(lines), from)
      ensures history == From(Parse(lines), from) <==>
              || (Tail(Parse(lines)) != [] && from < Tail(Parse(lines))[0].seqNo)
              || forall e | e in Dropped(Parse(lines)) :: e.seqNo < from
      ensures s.Abstract() == Opened(Parse(lines), freshToken)
    {
      var r := SeedJournal(lines);
      s := GetOrOpen(freshToken);
      history := s.ReplayFrom(from);
    }
  }
}
