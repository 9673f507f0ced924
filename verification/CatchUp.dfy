/** Serving one client of a one-room host: live events from a bounded broadcast
    channel, and the journal when the client was too slow for the channel. */
module CatchUp {
  import opened Common
  import S = Session
  import opened Journal = Session

  const CAPACITY := 1024

  /** The run token of envelopes that belong to no run. */
  const NIL := 0

  /** The room's journal and everything ever broadcast. */
  datatype Net = Net(log: Log, bus: seq<Envelope>)

  /** `pos` is the receiver's place in the channel, `start` the first number the
      client is interested in, `offered` what went to the client's filter. */
  datatype Client = Client(start: nat, pos: nat, last: Option<nat>, offered: seq<Envelope>)

  datatype Step = Publish(event: Event) | Notice(event: Event) | Receive

  function Published(net: Net, event: Event): Net {
    Net(Appended(net.log, event), net.bus + [Envelope(net.log.nextSeq, net.log.runToken, event)])
  }

  /** Broadcast without a number and without a journal entry. */
  function Noticed(net: Net, event: Event): Net {
    net.(bus := net.bus + [Envelope(0, NIL, event)])
  }

  function LastSeq(last: Option<nat>, es: seq<Envelope>): Option<nat> {
    if es == [] then last else Some(es[|es| - 1].seqNo)
  }

  function ResumeAt(last: Option<nat>): nat {
    if last.None? then 0 else last.value + 1
  }

  predicate Lagged(net: Net, c: Client) {
    |net.bus| - c.pos > CAPACITY
  }

  /** A receiver lags exactly when a message it has not seen is followed by 1024 others:
      the channel has let go of it. */
  lemma LaggedIff(net: Net, c: Client)
    ensures Lagged(net, c) <==> exists i: nat :: c.pos <= i < |net.bus| && Behind(net, i) > 1024
    ensures Lagged(net, c) ==> Received(net, c).pos == |net.bus| - 1024
  {
    if Lagged(net, c) {
      assert Behind(net, c.pos) > 1024;
    }
  }

  function Behind(net: Net, i: nat): int {
    |net.bus| - i
  }

  function Caught(net: Net, c: Client, from: nat): Client {
    var missed := From(net.log.entries, from);
    c.(last := LastSeq(c.last, missed), offered := c.offered + missed)
  }

  /** Catching up leaves nothing to catch up with: a second time would offer nothing. */
  lemma CaughtUp(net: Net, c: Client)
    requires Increasing(net.log.entries)
    ensures var c' := Caught(net, c, ResumeAt(c.last));
            Caught(net, c', ResumeAt(c'.last)) == c'
  {
    var missed := From(net.log.entries, ResumeAt(c.last));
    var c' := Caught(net, c, ResumeAt(c.last));
    if missed != [] {
      LastIsGreatest(net.log.entries, ResumeAt(c.last));
      S.FromNothingIff(net.log.entries, ResumeAt(c'.last));
    }
    assert c'.offered + [] == c'.offered;
  }

  lemma {:induction false} LastIsGreatest(es: seq<Envelope>, k: nat)
    requires Increasing(es) && From(es, k) != []
    ensures var missed := From(es, k);
            forall e | e in es :: e.seqNo <= missed[|missed| - 1].seqNo
  {
    var init, last := es[..|es| - 1], es[|es| - 1];
    assert es == init + [last];
    forall e | e in es
      ensures e.seqNo <= last.seqNo
    {
      var i :| 0 <= i < |es| && es[i] == e;
    }
    if last.seqNo < k {
      S.FromNothingIff(es, k);
      assert false;
    }
  }

  function Received(net: Net, c: Client): Client {
    if Lagged(net, c) then Caught(net, c, ResumeAt(c.last)).(pos := |net.bus| - CAPACITY)
    else if c.pos < |net.bus| then
      c.(pos := c.pos + 1, last := Some(net.bus[c.pos].seqNo), offered := c.offered + [net.bus[c.pos]])
    else c
  }

  /** Subscribed to the channel, nothing replayed yet. */
  function Subscribed(net: Net, want: Option<nat>): Client {
    Client(if want.Some? then want.value else net.log.nextSeq, |net.bus|, None, [])
  }

  function Replayed(net: Net, c: Client, want: Option<nat>): Client {
    if want.Some? then Caught(net, c, want.value) else c
  }

  function Sent(net: Net, s: Step): Net {
    match s
    case Publish(e) => Published(net, e)
    case Notice(e) => Noticed(net, e)
    case Receive => net
  }

  function NetAfter(net: Net, steps: seq<Step>): Net {
    if steps == [] then net else Sent(NetAfter(net, steps[..|steps| - 1]), steps[|steps| - 1])
  }

  function ClientAfter(net: Net, c: Client, steps: seq<Step>): Client {
    if steps == [] then c else
      var init := steps[..|steps| - 1];
      var before := ClientAfter(net, c, init);
      if steps[|steps| - 1].Receive? then Received(NetAfter(net, init), before) else before
  }

  // ------------------------------------------------------------------ invariant

  predicate Numbered(net: Net, e: Envelope) {
    e.runToken == net.log.runToken
  }

  /** Numbers rise along the channel, below the counter; notices have number 0. */
  ghost predicate BusInv(net: Net) {
    && (forall i | 0 <= i < |net.bus| ::
          if Numbered(net, net.bus[i]) then net.bus[i].seqNo < net.log.nextSeq else net.bus[i].seqNo == 0)
    && (forall i, j | 0 <= i < j < |net.bus| && Numbered(net, net.bus[i]) && Numbered(net, net.bus[j]) ::
          net.bus[i].seqNo < net.bus[j].seqNo)
  }

  ghost predicate NetInv(net: Net) {
    GoodLog(net.log) && OneToken(net.log) && net.log.runToken != NIL && BusInv(net)
  }

  /** Still waiting for the client in the channel. */
  predicate InChannel(net: Net, pos: nat, e: Envelope) {
    exists i | pos <= i < |net.bus| :: net.bus[i] == e
  }

  /** Whatever is journalled from `floor` on and has left the channel, or is not
      past the last number sent, was offered. */
  ghost predicate ClientInv(net: Net, c: Client, floor: nat) {
    && c.pos <= |net.bus|
    && (c.last.Some? ==> c.last.value < net.log.nextSeq || c.last.value < floor)
    && (forall e | e in net.log.entries && e.seqNo >= floor && !InChannel(net, c.pos, e) :: e in c.offered)
    && (c.last.Some? ==>
          forall e | e in net.log.entries && floor <= e.seqNo <= c.last.value :: e in c.offered)
  }

  /** Notices only disturb what is numbered 0. */
  predicate Undisturbed(net: Net, c: Client, floor: nat) {
    floor >= 1 || forall i | c.pos <= i < |net.bus| :: Numbered(net, net.bus[i])
  }

  lemma {:induction false} FromMembers(es: seq<Envelope>, k: nat, e: Envelope)
    ensures e in From(es, k) <==> e in es && e.seqNo >= k
  {
    if es != [] {
      FromMembers(es[..|es| - 1], k, e);
      assert es == es[..|es| - 1] + [es[|es| - 1]];
    }
  }

  lemma NetStep(net: Net, s: Step)
    requires NetInv(net)
    ensures NetInv(Sent(net, s))
  {
    match s {
      case Publish(e) => GoodLogStep(net.log, Append(e));
      case _ =>
    }
  }

  lemma NetAfterUnfolds(net: Net, steps: seq<Step>, s: Step)
    ensures NetAfter(net, steps + [s]) == Sent(NetAfter(net, steps), s)
    ensures forall c :: ClientAfter(net, c, steps + [s]) ==
                        if s.Receive? then Received(NetAfter(net, steps), ClientAfter(net, c, steps))
                        else ClientAfter(net, c, steps)
  {
    assert (steps + [s])[..|steps|] == steps;
  }

  lemma {:induction false} NetKeeps(net: Net, steps: seq<Step>)
    requires NetInv(net)
    ensures NetInv(NetAfter(net, steps))
  {
    if steps != [] {
      var init := steps[..|steps| - 1];
      NetKeeps(net, init);
      NetStep(NetAfter(net, init), steps[|steps| - 1]);
    }
  }

  lemma StaysInChannel(net: Net, net': Net, pos: nat, e: Envelope)
    requires net.bus <= net'.bus
    ensures InChannel(net, pos, e) ==> InChannel(net', pos, e)
  {
    if InChannel(net, pos, e) {
      var i :| pos <= i < |net.bus| && net.bus[i] == e;
      assert net'.bus[i] == e;
    }
  }

  /** Sending something never takes an offer back. */
  lemma SendingKeeps(net: Net, net': Net, c: Client, floor: nat, e: Envelope)
    requires NetInv(net) && ClientInv(net, c, floor)
    requires net'.bus == net.bus + [e]
    requires net'.log.entries == net.log.entries
             || (net'.log.entries == net.log.entries + [e] && e.seqNo == net.log.nextSeq)
    requires net.log.nextSeq <= net'.log.nextSeq
    ensures ClientInv(net', c, floor)
  {
    forall d | d in net'.log.entries && d.seqNo >= floor && !InChannel(net', c.pos, d)
      ensures d in c.offered
    {
      assert net'.bus[|net.bus|] == e;
      StaysInChannel(net, net', c.pos, d);
    }
  }

  lemma EntriesAreBelow(l: Log, e: Envelope)
    requires GoodLog(l) && e in l.entries
    ensures e.seqNo < l.nextSeq
  {
    var i :| 0 <= i < |l.entries| && l.entries[i] == e;
    assert i == |l.entries| - 1 || l.entries[i].seqNo < l.entries[|l.entries| - 1].seqNo;
  }

  lemma CatchingUpKeeps(net: Net, c: Client, from: nat, floor: nat, pos: nat)
    requires NetInv(net) && pos <= |net.bus|
    requires forall e | e in net.log.entries && floor <= e.seqNo < from :: e in c.offered
    requires c.last.None? || (c.last.value < from && (c.last.value < net.log.nextSeq || c.last.value < floor))
    ensures ClientInv(net, Caught(net, c, from).(pos := pos), floor)
    ensures forall e | e in net.log.entries && e.seqNo >= floor :: e in Caught(net, c, from).offered
  {
    forall e | e in net.log.entries && e.seqNo >= floor
      ensures e in Caught(net, c, from).offered
    {
      FromMembers(net.log.entries, from, e);
    }
    var missed := From(net.log.entries, from);
    if missed != [] {
      FromMembers(net.log.entries, from, missed[|missed| - 1]);
      EntriesAreBelow(net.log, missed[|missed| - 1]);
    }
  }

  lemma LiveKeeps(net: Net, c: Client, floor: nat)
    requires NetInv(net) && ClientInv(net, c, floor) && Undisturbed(net, c, floor)
    requires c.pos < |net.bus|
    ensures ClientInv(net, Received(net, c), floor) || Lagged(net, c)
  {
    var got := net.bus[c.pos];
    var c' := c.(pos := c.pos + 1, last := Some(got.seqNo), offered := c.offered + [got]);
    forall e | e in net.log.entries && e.seqNo >= floor && !InChannel(net, c'.pos, e)
      ensures e in c'.offered
    {
      if InChannel(net, c.pos, e) {
        var i :| c.pos <= i < |net.bus| && net.bus[i] == e;
        assert i == c.pos;
      }
    }
    forall e | e in net.log.entries && floor <= e.seqNo <= got.seqNo
      ensures e in c'.offered
    {
      assert Numbered(net, e);
      forall i | c'.pos <= i < |net.bus|
        ensures net.bus[i] != e
      {
        if Numbered(net, net.bus[i]) && Numbered(net, got) {
          assert got.seqNo < net.bus[i].seqNo;
        }
      }
    }
  }

  lemma ReceivingKeeps(net: Net, c: Client, floor: nat)
    requires NetInv(net) && ClientInv(net, c, floor) && Undisturbed(net, c, floor)
    ensures ClientInv(net, Received(net, c), floor) && Undisturbed(net, Received(net, c), floor)
  {
    if Lagged(net, c) {
      CatchingUpKeeps(net, c, ResumeAt(c.last), floor, |net.bus| - CAPACITY);
    } else if c.pos < |net.bus| {
      LiveKeeps(net, c, floor);
    }
  }

  predicate NoNotices(steps: seq<Step>) {
    forall i | 0 <= i < |steps| :: !steps[i].Notice?
  }

  lemma PublishingKeeps(net: Net, c: Client, floor: nat, s: Step)
    requires NetInv(net) && ClientInv(net, c, floor) && Undisturbed(net, c, floor)
    requires !s.Receive? && (s.Notice? ==> floor >= 1)
    ensures ClientInv(Sent(net, s), c, floor) && Undisturbed(Sent(net, s), c, floor)
  {
    var net' := Sent(net, s);
    SendingKeeps(net, net', c, floor, net'.bus[|net.bus|]);
  }

  lemma {:induction false} ServingKeeps(net: Net, c: Client, steps: seq<Step>, floor: nat)
    requires NetInv(net) && ClientInv(net, c, floor) && Undisturbed(net, c, floor)
    requires floor >= 1 || NoNotices(steps)
    ensures NetInv(NetAfter(net, steps))
    ensures ClientInv(NetAfter(net, steps), ClientAfter(net, c, steps), floor)
    ensures Undisturbed(NetAfter(net, steps), ClientAfter(net, c, steps), floor)
  {
    if steps != [] {
      var init := steps[..|steps| - 1];
      var s := steps[|steps| - 1];
      ServingKeeps(net, c, init, floor);
      NetKeeps(net, steps);
      if s.Receive? {
        assert NetAfter(net, steps) == NetAfter(net, init);
        ReceivingKeeps(NetAfter(net, init), ClientAfter(net, c, init), floor);
      } else {
        PublishingKeeps(NetAfter(net, init), ClientAfter(net, c, init), floor, s);
      }
    }
  }

  /** The channel and the journal grow by the same entries. */
  lemma {:induction false} NewEntriesAreInChannel(net: Net, steps: seq<Step>, e: Envelope)
    requires NetInv(net)
    ensures net.bus <= NetAfter(net, steps).bus && net.log.nextSeq <= NetAfter(net, steps).log.nextSeq
    ensures NetAfter(net, steps).log.runToken == net.log.runToken
    ensures e in NetAfter(net, steps).log.entries ==>
              e in net.log.entries || InChannel(NetAfter(net, steps), |net.bus|, e)
    ensures NoNotices(steps) ==>
              forall i | |net.bus| <= i < |NetAfter(net, steps).bus| :: Numbered(net, NetAfter(net, steps).bus[i])
  {
    if steps != [] {
      var init := steps[..|steps| - 1];
      NewEntriesAreInChannel(net, init, e);
      var before, after := NetAfter(net, init), NetAfter(net, steps);
      StaysInChannel(before, after, |net.bus|, e);
      if |before.bus| < |after.bus| && after.bus[|before.bus|] == e {
        assert InChannel(after, |net.bus|, e);
      }
    }
  }

  lemma StartingKeeps(net: Net, want: Option<nat>, during: seq<Step>, floor: nat)
    requires NetInv(net) && floor >= Subscribed(net, want).start
    requires floor >= 1 || NoNotices(during)
    ensures var c := Replayed(NetAfter(net, during), Subscribed(net, want), want);
            NetInv(NetAfter(net, during)) && ClientInv(NetAfter(net, during), c, floor)
            && Undisturbed(NetAfter(net, during), c, floor)
  {
    var net', c := NetAfter(net, during), Subscribed(net, want);
    NetKeeps(net, during);
    forall e
      ensures e in net'.log.entries && e.seqNo >= net.log.nextSeq ==> InChannel(net', |net.bus|, e)
    {
      NewEntriesAreInChannel(net, during, e);
      if e in net.log.entries {
        EntriesAreBelow(net.log, e);
      }
    }
    NewEntriesAreInChannel(net, during, Envelope(0, 0, Durable(0)));
    if want.Some? {
      CatchingUpKeeps(net', c, want.value, floor, c.pos);
    }
  }

  /** From where on nothing journalled can be missed: number 0 is only safe when
      no notice is broadcast. */
  function Floor(start: nat, quiet: bool): nat {
    if quiet || start >= 1 then start else 1
  }

  /** A slow client misses nothing that was journalled: whatever mix of live
      receives and catch-ups it goes through, everything from its starting point
      that has left the channel, or is not past the last number sent, was offered. */
  lemma NothingJournalledIsMissed(net: Net, want: Option<nat>, during: seq<Step>, schedule: seq<Step>)
    requires NetInv(net)
    ensures var net' := NetAfter(net, during);
            var c := Replayed(net', Subscribed(net, want), want);
            ClientInv(NetAfter(net', schedule), ClientAfter(net', c, schedule),
                      Floor(c.start, NoNotices(during) && NoNotices(schedule)))
  {
    var net' := NetAfter(net, during);
    var c := Replayed(net', Subscribed(net, want), want);
    var floor := Floor(c.start, NoNotices(during) && NoNotices(schedule));
    StartingKeeps(net, want, during, floor);
    ServingKeeps(net', c, schedule, floor);
  }

  // ------------------------------------------------------- the event numbered 0

  /** A client that lags before it was offered event 0 gets it exactly when it has
      been sent nothing at all yet. */
  lemma LaggingOffersZeroIff(net: Net, c: Client, zero: Envelope)
    requires Lagged(net, c) && zero in net.log.entries && zero.seqNo == 0 && zero !in c.offered
    ensures zero in Received(net, c).offered <==> c.last.None?
  {
    FromMembers(net.log.entries, ResumeAt(c.last), zero);
  }

  /** The client is past event 0 without having been offered it. */
  ghost predicate MissedZero(net: Net, c: Client, zero: Envelope) {
    && zero in net.log.entries && zero.seqNo == 0
    && zero !in c.offered && !InChannel(net, c.pos, zero) && c.last.Some? && c.pos <= |net.bus|
  }

  lemma ReceiveStaysMissed(net: Net, c: Client, zero: Envelope)
    requires NetInv(net) && MissedZero(net, c, zero)
    ensures MissedZero(net, Received(net, c), zero)
  {
    FromMembers(net.log.entries, ResumeAt(c.last), zero);
  }

  lemma SendStaysMissed(net: Net, s: Step, c: Client, zero: Envelope)
    requires NetInv(net) && MissedZero(net, c, zero)
    ensures MissedZero(Sent(net, s), c, zero)
  {
    NetStep(net, s);
  }

  /** Once it has left the channel it never comes back. */
  lemma {:induction false} MissedZeroStaysMissed(net: Net, c: Client, steps: seq<Step>, zero: Envelope)
    requires NetInv(net) && MissedZero(net, c, zero)
    ensures NetInv(NetAfter(net, steps)) && MissedZero(NetAfter(net, steps), ClientAfter(net, c, steps), zero)
  {
    if steps != [] {
      var init, last := steps[..|steps| - 1], steps[|steps| - 1];
      MissedZeroStaysMissed(net, c, init, zero);
      var before, c' := NetAfter(net, init), ClientAfter(net, c, init);
      NetStep(before, last);
      if last.Receive? {
        ReceiveStaysMissed(before, c', zero);
      } else {
        SendStaysMissed(before, last, c', zero);
      }
    }
  }

  function Publishing(n: nat): seq<Step> {
    if n == 0 then [] else Publishing(n - 1) + [Publish(Durable(0))]
  }

  lemma {:induction false} AfterPublishing(net: Net, c: Client, n: nat)
    ensures |NetAfter(net, Publishing(n)).bus| == |net.bus| + n
    ensures ClientAfter(net, c, Publishing(n)) == c
    ensures n >= 1 ==> net.log.entries + [Envelope(net.log.nextSeq, net.log.runToken, Durable(0))]
                       <= NetAfter(net, Publishing(n)).log.entries
    ensures n == 0 ==> NetAfter(net, Publishing(n)) == net
  {
    if n >= 1 {
      AfterPublishing(net, c, n - 1);
      assert Publishing(n)[..|Publishing(n)| - 1] == Publishing(n - 1);
    }
  }

  /** A notice received before the first event, then a burst larger than the
      channel: the first event is journalled and never offered. */
  lemma NoticeHidesTheFirstEvent(token: nat)
    requires token != NIL
    ensures var net := Sent(Net(Log(0, token, []), []), Notice(Durable(7)));
            var c := Received(net, Subscribed(Net(Log(0, token, []), []), None));
            var burst := NetAfter(net, Publishing(CAPACITY + 1));
            && Envelope(0, token, Durable(0)) in burst.log.entries
            && Envelope(0, token, Durable(0)) !in Received(burst, ClientAfter(net, c, Publishing(CAPACITY + 1))).offered
  {
    var net := Sent(Net(Log(0, token, []), []), Notice(Durable(7)));
    var c := Received(net, Subscribed(Net(Log(0, token, []), []), None));
    AfterPublishing(net, c, CAPACITY + 1);
    var zero := Envelope(0, token, Durable(0));
    var burst := NetAfter(net, Publishing(CAPACITY + 1));
    assert burst.log.entries[0] == zero;
    LaggingOffersZeroIff(burst, c, zero);
  }

  // ------------------------------------------------------------- implementation

  class Host {
    const session: S.Session
    var bus: seq<Envelope>

    ghost predicate Valid()
      reads this, session, session.disk
    {
      session.Valid() && Increasing(session.Entries())
    }

    ghost function State(): Net
      reads this, session, session.disk
    {
      Net(session.Abstract(), bus)
    }

    constructor (session: S.Session)
      requires session.Valid() && Increasing(session.Entries())
      ensures Valid() && this.session == session && bus == []
    {
      this.session := session;
      bus := [];
    }

    method Publish(event: Event) returns (envelope: Envelope)
      requires Valid()
      modifies this, session, session.disk
      ensures Valid() && State() == Published(old(State()), event)
    {
      GoodLogStep(session.Abstract(), Append(event));
      envelope := session.Append(event);
      bus := bus + [envelope];
    }

    method BroadcastOnly(event: Event) returns (envelope: Envelope)
      requires Valid()
      modifies this
      ensures Valid() && State() == Noticed(old(State()), event)
    {
      envelope := Envelope(0, NIL, event);
      bus := bus + [envelope];
    }
  }

  class Connection {
    const host: Host
    ghost const start: nat
    var pos: nat
    var last: Option<nat>
    var offered: seq<Envelope>

    ghost function State(): Client
      reads this
    {
      Client(start, pos, last, offered)
    }

    constructor Subscribe(host: Host, want: Option<nat>)
      requires host.Valid()
      ensures this.host == host && State() == Subscribed(host.State(), want)
    {
      this.host := host;
      start := if want.Some? then want.value else host.session.nextSeq;
      pos, last, offered := |host.bus|, None, [];
    }

    method Offer(envelope: Envelope)
      modifies this
      ensures State() == old(State()).(last := Some(envelope.seqNo), offered := old(offered) + [envelope])
    {
      last := Some(envelope.seqNo);
      offered := offered + [envelope];
    }

    method CatchUpFrom(from: nat)
      requires host.Valid()
      modifies this
      ensures State() == Caught(host.State(), old(State()), from)
    {
      var missed := host.session.ReplayFrom(from);
      ghost var before := State();
      for i := 0 to |missed|
        invariant State() == before.(last := LastSeq(before.last, missed[..i]), offered := before.offered + missed[..i])
      {
        assert missed[..i + 1] == missed[..i] + [missed[i]];
        Offer(missed[i]);
      }
      assert missed[..|missed|] == missed;
    }

    /** One turn of the receiver; waiting changes nothing. */
    method Receive()
      requires host.Valid() && pos <= |host.bus|
      modifies this
      ensures State() == Received(host.State(), old(State())) && pos <= |host.bus|
    {
      if |host.bus| - pos > CAPACITY {
        var from := if last.None? then 0 else last.value + 1;
        CatchUpFrom(from);
        pos := |host.bus| - CAPACITY;
      } else if pos < |host.bus| {
        var envelope := host.bus[pos];
        pos := pos + 1;
        Offer(envelope);
      }
    }
  }

  /** What happens on the host while nobody listens. */
  method Act(host: Host, steps: seq<Step>)
    requires host.Valid()
    modifies host, host.session, host.session.disk
    ensures host.Valid() && host.State() == NetAfter(old(host.State()), steps) && old(host.bus) <= host.bus
  {
    ghost var net := host.State();
    for i := 0 to |steps|
      invariant host.Valid() && host.State() == NetAfter(net, steps[..i]) && old(host.bus) <= host.bus
    {
      assert steps[..i + 1] == steps[..i] + [steps[i]];
      NetAfterUnfolds(net, steps[..i], steps[i]);
      ActOnce(host, steps[i]);
    }
    assert steps[..|steps|] == steps;
  }

  method ActOnce(host: Host, s: Step)
    requires host.Valid()
    modifies host, host.session, host.session.disk
    ensures host.Valid() && host.State() == Sent(old(host.State()), s) && old(host.bus) <= host.bus
  {
    match s {
      case Publish(e) =>
        var envelope := host.Publish(e);
      case Notice(e) =>
        var envelope := host.BroadcastOnly(e);
      case Receive =>
    }
  }

  /** One event on the host, and a turn of the receiver when it is due. */
  method Turn(host: Host, c: Connection, s: Step)
    requires host.Valid() && c.host == host && c.pos <= |host.bus|
    modifies host, host.session, host.session.disk, c
    ensures host.Valid() && c.pos <= |host.bus| && host.State() == Sent(old(host.State()), s)
    ensures c.State() == if s.Receive? then Received(old(host.State()), old(c.State())) else old(c.State())
  {
    ActOnce(host, s);
    if s.Receive? {
      c.Receive();
    }
  }

  method Run(host: Host, c: Connection, schedule: seq<Step>)
    requires host.Valid() && c.host == host && c.pos <= |host.bus|
    modifies host, host.session, host.session.disk, c
    ensures host.Valid() && host.State() == NetAfter(old(host.State()), schedule)
    ensures c.State() == ClientAfter(old(host.State()), old(c.State()), schedule)
  {
    ghost var net, c0 := host.State(), c.State();
    for i := 0 to |schedule|
      invariant host.Valid() && c.pos <= |host.bus|
      invariant host.State() == NetAfter(net, schedule[..i]) && c.State() == ClientAfter(net, c0, schedule[..i])
    {
      assert schedule[..i + 1] == schedule[..i] + [schedule[i]];
      NetAfterUnfolds(net, schedule[..i], schedule[i]);
      Turn(host, c, schedule[i]);
    }
    assert schedule[..|schedule|] == schedule;
  }

  /** A connection from its subscription on, as the state machine says. */
  method Serve(host: Host, want: Option<nat>, during: seq<Step>, schedule: seq<Step>) returns (c: Connection)
    requires host.Valid()
    modifies host, host.session, host.session.disk
    ensures host.Valid()
    ensures var net := NetAfter(old(host.State()), during);
            && host.State() == NetAfter(net, schedule)
            && c.State() == ClientAfter(net, Replayed(net, Subscribed(old(host.State()), want), want), schedule)
  {
    c := new Connection.Subscribe(host, want);
    Act(host, during);
    if want.Some? {
      c.CatchUpFrom(want.value);
    }
    Run(host, c, schedule);
  }
}
