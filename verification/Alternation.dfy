/** The rounds that fill a packet: how the three kinds take turns, and that this
    leaves exactly one way to fill it. */
module Alternation {
  import opened MessageCodec
  import opened PacketFill

  /** The order in which a round serves the kinds. */
  predicate Before(a: MessageKind, b: MessageKind) {
    (a == Instant && b != Instant) || (a == Reliable && b == Ordered)
  }

  function Of(i: seq<Message>, r: seq<Message>, o: seq<Message>, kind: MessageKind): seq<Message> {
    match kind
    case Instant => i
    case Reliable => r
    case Ordered => o
  }

  /** How many messages of a kind are among `done`. */
  function Turns(done: seq<Message>, kind: MessageKind): nat {
    |Project(done, kind)|
  }

  /** After `done` the next message of this queue would still fit. */
  predicate Ready(queue: seq<Message>, done: seq<Message>, room: nat, kind: MessageKind) {
    Turns(done, kind) < |queue| && Cost(queue[Turns(done, kind)]) <= room - Costs(done)
  }

  /** A kind has its turn after `done` only if every other kind that is ready has
      had as many turns, and one more if it comes first in the round. */
  predicate FairTurn(i: seq<Message>, r: seq<Message>, o: seq<Message>, room: nat, done: seq<Message>, turn: MessageKind) {
    forall kind: MessageKind :: Ready(Of(i, r, o, kind), done, room, kind) ==>
      Turns(done, turn) + (if Before(kind, turn) then 1 else 0) <= Turns(done, kind)
  }

  predicate Fair(out: seq<Message>, i: seq<Message>, r: seq<Message>, o: seq<Message>, room: nat) {
    forall p | 0 <= p < |out| :: FairTurn(i, r, o, room, out[..p], out[p].kind)
  }

  // ----- the rounds are fair -----

  /** What a round takes of one kind. */
  function Taken(i: seq<Message>, r: seq<Message>, o: seq<Message>, room: nat, kind: MessageKind): (n: nat)
    ensures n <= 1
  {
    var room1 := room - Charge(i, room);
    match kind
    case Instant => Take(i, room)
    case Reliable => Take(r, room1)
    case Ordered => Take(o, room1 - Charge(r, room1))
  }

  lemma RoundTakes(i: seq<Message>, r: seq<Message>, o: seq<Message>, room: nat, t: RoundResult, kind: MessageKind)
    requires Sorted(i, r, o) && t == OneRound(i, r, o, room)
    ensures
      var queue, n := Of(i, r, o, kind), Taken(i, r, o, room, kind);
      n <= |queue| && Of(t.i, t.r, t.o, kind) == queue[n..] && Project(t.out, kind) == queue[..n]
    ensures Costs(t.out) == room - t.room
  {
    hide Costs, Charge;
    RoundCosts(i, r, o, room, t);
    var a, b, c := Taken(i, r, o, room, Instant), Taken(i, r, o, room, Reliable), Taken(i, r, o, room, Ordered);
    assert t.out + [] == t.out;
    ProjectParts(i[..a], r[..b], o[..c], [], t.out, kind);
    assert Project([], kind) == [];
  }

  /** A kind that a round skipped does not fit afterwards either. */
  lemma SkippedIsStuck(i: seq<Message>, r: seq<Message>, o: seq<Message>, room: nat, t: RoundResult, kind: MessageKind)
    requires t == OneRound(i, r, o, room) && Taken(i, r, o, room, kind) == 0
    ensures !HeadFits(Of(i, r, o, kind), t.room)
  {
  }

  lemma {:induction false} StuckHasNoTurn(out: seq<Message>, left: seq<Message>, queue: seq<Message>, room: nat, kind: MessageKind)
    requires Project(out, kind) + left == queue && Costs(out) <= room && !HeadFits(queue, room)
    ensures Project(out, kind) == []
  {
    if Project(out, kind) != [] {
      assert Project(out, kind)[0] == queue[0];
      MemberCosts(out, kind, queue[0]);
    }
  }

  lemma PrefixOf(out: seq<Message>, left: seq<Message>, queue: seq<Message>, p: nat, kind: MessageKind)
    requires Project(out, kind) + left == queue && p <= |out|
    ensures Turns(out[..p], kind) <= |queue| && Project(out[..p], kind) == queue[..Turns(out[..p], kind)]
    ensures Costs(out[..p]) <= Costs(out) && Turns(out[..p], kind) <= Turns(out, kind)
    ensures p < |out| && out[p].kind == kind ==>
              Turns(out[..p], kind) < |queue| && queue[Turns(out[..p], kind)] == out[p] && Costs(out[..p]) + Cost(out[p]) <= Costs(out)
  {
    assert out == out[..p] + out[p..];
    ProjectAppend(out[..p], out[p..], kind);
    CostsAppend(out[..p], out[p..]);
    var head, tail := Project(out[..p], kind), Project(out[p..], kind);
    assert queue == head + (tail + left);
    if p < |out| && out[p].kind == kind {
      assert tail[0] == out[p];
      assert queue[|head|] == (tail + left)[0] == out[p];
    }
  }

  /** The turns taken at each point of a round that writes `a`, `b` and then others. */
  lemma RoundTurns(a: seq<Message>, b: seq<Message>, kind: MessageKind)
    requires AllOf(a, Instant) && AllOf(b, Reliable)
    ensures Turns([], kind) == 0 && Costs([]) == 0 && Costs(a + b) == Costs(a) + Costs(b)
    ensures Turns(a, kind) == if kind == Instant then |a| else 0
    ensures Turns(a + b, kind) == if kind == Instant then |a| else if kind == Reliable then |b| else 0
  {
    ProjectOwn(a, Instant, kind);
    ProjectOwn(b, Reliable, kind);
    ProjectAppend(a, b, kind);
    CostsAppend(a, b);
  }

  lemma ThreeTurns(a: seq<Message>, b: seq<Message>, c: seq<Message>, p: nat)
    requires |a| <= 1 && |b| <= 1 && |c| <= 1 && Sorted(a, b, c) && p < |a + b + c|
    ensures (a + b + c)[..p] == match (a + b + c)[p].kind case Instant => [] case Reliable => a case Ordered => a + b
  {
    var out := a + b + c;
    if p < |a| {
      assert out[p] in a;
    } else if p < |a| + |b| {
      assert out[p] in b;
      assert out[..p] == a;
    } else {
      assert out[p] in c;
      assert out[..p] == a + b;
    }
  }

  lemma OneTurnIsFair(i: seq<Message>, r: seq<Message>, o: seq<Message>, room: nat, a: seq<Message>, b: seq<Message>,
                      done: seq<Message>, turn: MessageKind, kind: MessageKind)
    requires AllOf(a, Instant) && AllOf(b, Reliable)
    requires |a| <= 1 && (a == [] ==> !HeadFits(i, room))
    requires |b| <= 1 && (b == [] ==> !HeadFits(r, room - Costs(a)))
    requires done == match turn case Instant => [] case Reliable => a case Ordered => a + b
    requires Ready(Of(i, r, o, kind), done, room, kind)
    ensures Turns(done, turn) + (if Before(kind, turn) then 1 else 0) <= Turns(done, kind)
  {
    hide AllOf, Cost;
    hide Costs, Turns;
    RoundTurns(a, b, kind);
    RoundTurns(a, b, turn);
  }

  lemma TakenPart(queue: seq<Message>, room: nat, kind: MessageKind, part: seq<Message>)
    requires AllOf(queue, kind) && part == queue[..Take(queue, room)]
    ensures AllOf(part, kind) && |part| <= 1 && (part == [] ==> !HeadFits(queue, room)) && Costs(part) == Charge(queue, room)
  {
    TakeCosts(queue, room);
  }

  lemma RoundParts(i: seq<Message>, r: seq<Message>, o: seq<Message>, room: nat, t: RoundResult)
    returns (a: seq<Message>, b: seq<Message>, c: seq<Message>)
    requires Sorted(i, r, o) && t == OneRound(i, r, o, room)
    ensures t.out == a + b + c && Sorted(a, b, c) && |a| <= 1 && |b| <= 1 && |c| <= 1
    ensures (a == [] ==> !HeadFits(i, room)) && (b == [] ==> !HeadFits(r, room - Costs(a)))
  {
    hide Costs, AllOf, HeadFits, Take, Charge;
    var room1 := room - Charge(i, room);
    var room2 := room1 - Charge(r, room1);
    a, b, c := i[..Take(i, room)], r[..Take(r, room1)], o[..Take(o, room2)];
    TakenPart(i, room, Instant, a);
    TakenPart(r, room1, Reliable, b);
    TakenPart(o, room2, Ordered, c);
  }

  /** The turns of the first round. */
  lemma RoundIsFair(i: seq<Message>, r: seq<Message>, o: seq<Message>, room: nat, t: RoundResult, p: nat)
    requires Sorted(i, r, o) && t == OneRound(i, r, o, room) && p < |t.out|
    ensures FairTurn(i, r, o, room, t.out[..p], t.out[p].kind)
  {
    hide OneRound, Ready, Turns, HeadFits;
    var a, b, c := RoundParts(i, r, o, room, t);
    ThreeTurns(a, b, c, p);
    forall kind: MessageKind | Ready(Of(i, r, o, kind), t.out[..p], room, kind)
      ensures Turns(t.out[..p], t.out[p].kind) + (if Before(kind, t.out[p].kind) then 1 else 0) <= Turns(t.out[..p], kind)
    {
      OneTurnIsFair(i, r, o, room, a, b, t.out[..p], t.out[p].kind, kind);
    }
  }

  /** Of one kind, a round and what follows it. */
  lemma TurnsAfterRound(i: seq<Message>, r: seq<Message>, o: seq<Message>, room: nat, t: RoundResult, done: seq<Message>, kind: MessageKind)
    requires Sorted(i, r, o) && t == OneRound(i, r, o, room)
    ensures Turns(t.out + done, kind) == Taken(i, r, o, room, kind) + Turns(done, kind)
    ensures Ready(Of(i, r, o, kind), t.out + done, room, kind) ==> Ready(Of(t.i, t.r, t.o, kind), done, t.room, kind)
  {
    hide OneRound, Costs, Project, Taken;
    RoundTakes(i, r, o, room, t, kind);
    ProjectAppend(t.out, done, kind);
    CostsAppend(t.out, done);
  }

  lemma NotReadyIfSkipped(i: seq<Message>, r: seq<Message>, o: seq<Message>, room: nat, t: RoundResult, rest: Split, p: nat, kind: MessageKind)
    requires Sorted(i, r, o) && t == OneRound(i, r, o, room) && GoodSplit(rest, t.i, t.r, t.o, t.room) && p <= |rest.out|
    requires Taken(i, r, o, room, kind) == 0
    ensures !Ready(Of(t.i, t.r, t.o, kind), rest.out[..p], t.room, kind)
  {
    hide OneRound, Costs, Project, Taken;
    RoundTakes(i, r, o, room, t, kind);
    SkippedIsStuck(i, r, o, room, t, kind);
    var left := Of(rest.i, rest.r, rest.o, kind);
    StuckHasNoTurn(rest.out, left, Of(t.i, t.r, t.o, kind), t.room, kind);
    PrefixOf(rest.out, left, Of(t.i, t.r, t.o, kind), p, kind);
  }

  /** The turns after the first round. */
  lemma LaterIsFair(i: seq<Message>, r: seq<Message>, o: seq<Message>, room: nat, t: RoundResult, rest: Split, p: nat)
    requires Sorted(i, r, o) && t == OneRound(i, r, o, room) && GoodSplit(rest, t.i, t.r, t.o, t.room) && p < |rest.out|
    requires FairTurn(t.i, t.r, t.o, t.room, rest.out[..p], rest.out[p].kind)
    ensures FairTurn(i, r, o, room, t.out + rest.out[..p], rest.out[p].kind)
  {
    hide OneRound, Ready, Turns, GoodSplit, Taken;
    var done, turn := rest.out[..p], rest.out[p].kind;
    TurnsAfterRound(i, r, o, room, t, done, turn);
    forall kind: MessageKind | Ready(Of(i, r, o, kind), t.out + done, room, kind)
      ensures Turns(t.out + done, turn) + (if Before(kind, turn) then 1 else 0) <= Turns(t.out + done, kind)
    {
      TurnsAfterRound(i, r, o, room, t, done, kind);
      if Taken(i, r, o, room, kind) == 0 {
        NotReadyIfSkipped(i, r, o, room, t, rest, p, kind);
      }
    }
  }

  lemma JoinFair(i: seq<Message>, r: seq<Message>, o: seq<Message>, room: nat, t: RoundResult, rest: Split)
    requires Sorted(i, r, o) && t == OneRound(i, r, o, room) && GoodSplit(rest, t.i, t.r, t.o, t.room)
    requires Fair(rest.out, t.i, t.r, t.o, t.room)
    ensures Fair(t.out + rest.out, i, r, o, room)
  {
    hide OneRound, GoodSplit, FairTurn, Sorted;
    var out := t.out + rest.out;
    forall p | 0 <= p < |out|
      ensures FairTurn(i, r, o, room, out[..p], out[p].kind)
    {
      if p < |t.out| {
        assert out[..p] == t.out[..p];
        RoundIsFair(i, r, o, room, t, p);
      } else {
        assert out[..p] == t.out + rest.out[..p - |t.out|];
        LaterIsFair(i, r, o, room, t, rest, p - |t.out|);
      }
    }
  }

  /** The rounds never let a kind get ahead of another that could still write. */
  lemma {:induction false} FillIsFair(i: seq<Message>, r: seq<Message>, o: seq<Message>, room: nat, s: Split)
    requires Sorted(i, r, o) && s == Fill(i, r, o, room)
    ensures GoodSplit(s, i, r, o, room) && Fair(s.out, i, r, o, room)
    decreases |i| + |r| + |o|
  {
    hide OneRound, GoodSplit, Fair, Fill, Sorted;
    FillGuarantees(i, r, o, room, s);
    var t := OneRound(i, r, o, room);
    FillUnfolds(i, r, o, room, t);
    if t.out == [] {
      NothingIsFair(i, r, o, room);
    } else {
      var rest := Fill(t.i, t.r, t.o, t.room);
      SortedRound(i, r, o, room, t);
      FillIsFair(t.i, t.r, t.o, t.room, rest);
      JoinFair(i, r, o, room, t, rest);
    }
  }

  lemma NothingIsFair(i: seq<Message>, r: seq<Message>, o: seq<Message>, room: nat)
    ensures Fair([], i, r, o, room)
  {
  }

  // ----- there is no other way -----

  /** Where two fair ways of filling agree so far, they have the same next turn. */
  lemma SameTurn(i: seq<Message>, r: seq<Message>, o: seq<Message>, room: nat, one: Split, other: Split, p: nat)
    requires GoodSplit(one, i, r, o, room) && GoodSplit(other, i, r, o, room)
    requires Fair(one.out, i, r, o, room) && Fair(other.out, i, r, o, room)
    requires p < |one.out| && p < |other.out| && one.out[..p] == other.out[..p]
    ensures one.out[p] == other.out[p]
  {
    hide Costs, Project, Turns;
    var done, a, b := one.out[..p], one.out[p].kind, other.out[p].kind;
    NextIsReady(i, r, o, room, one, p);
    NextIsReady(i, r, o, room, other, p);
    assert FairTurn(i, r, o, room, done, a) && FairTurn(i, r, o, room, done, b);
    assert Turns(done, a) + (if Before(b, a) then 1 else 0) <= Turns(done, b);
    assert Turns(done, b) + (if Before(a, b) then 1 else 0) <= Turns(done, a);
    assert a == b;
  }

  lemma NextIsReady(i: seq<Message>, r: seq<Message>, o: seq<Message>, room: nat, s: Split, p: nat)
    requires GoodSplit(s, i, r, o, room) && p < |s.out|
    ensures
      var kind := s.out[p].kind;
      var queue, n := Of(i, r, o, kind), Turns(s.out[..p], kind);
      Ready(queue, s.out[..p], room, kind) && s.out[p] == queue[n]
  {
    hide Costs, Project;
    var kind := s.out[p].kind;
    PrefixOf(s.out, Of(s.i, s.r, s.o, kind), Of(i, r, o, kind), p, kind);
  }

  lemma {:induction false} SamePrefix(i: seq<Message>, r: seq<Message>, o: seq<Message>, room: nat, one: Split, other: Split, p: nat)
    requires GoodSplit(one, i, r, o, room) && GoodSplit(other, i, r, o, room)
    requires Fair(one.out, i, r, o, room) && Fair(other.out, i, r, o, room)
    requires p <= |one.out| && p <= |other.out|
    ensures one.out[..p] == other.out[..p]
  {
    hide GoodSplit, Fair;
    if p > 0 {
      SamePrefix(i, r, o, room, one, other, p - 1);
      SameTurn(i, r, o, room, one, other, p - 1);
      assert one.out[..p] == one.out[..p - 1] + [one.out[p - 1]];
      assert other.out[..p] == other.out[..p - 1] + [other.out[p - 1]];
    }
  }

  lemma NothingIsReady(i: seq<Message>, r: seq<Message>, o: seq<Message>, room: nat, s: Split, kind: MessageKind)
    requires GoodSplit(s, i, r, o, room)
    ensures !Ready(Of(i, r, o, kind), s.out, room, kind)
  {
    hide Costs, Project;
    var queue, left := Of(i, r, o, kind), Of(s.i, s.r, s.o, kind);
    assert queue == Project(s.out, kind) + left;
    assert left != [] ==> left[0] == queue[Turns(s.out, kind)];
  }

  /** A way of filling that leaves no room for another message is no beginning of
      a longer one. */
  lemma NoLonger(i: seq<Message>, r: seq<Message>, o: seq<Message>, room: nat, one: Split, other: Split)
    requires GoodSplit(one, i, r, o, room) && GoodSplit(other, i, r, o, room)
    requires |one.out| < |other.out|
    ensures one.out != other.out[..|one.out|]
  {
    hide GoodSplit, Ready;
    NextIsReady(i, r, o, room, other, |one.out|);
    NothingIsReady(i, r, o, room, one, other.out[|one.out|].kind);
  }

  lemma OneWay(i: seq<Message>, r: seq<Message>, o: seq<Message>, room: nat, one: Split, other: Split)
    requires GoodSplit(one, i, r, o, room) && GoodSplit(other, i, r, o, room)
    requires Fair(one.out, i, r, o, room) && Fair(other.out, i, r, o, room)
    ensures one == other
  {
    hide Costs, Project, Fair;
    var p := if |one.out| < |other.out| then |one.out| else |other.out|;
    SamePrefix(i, r, o, room, one, other, p);
    assert one.out[..|one.out|] == one.out && other.out[..|other.out|] == other.out;
    if |one.out| < |other.out| {
      NoLonger(i, r, o, room, one, other);
    } else if |other.out| < |one.out| {
      NoLonger(i, r, o, room, other, one);
    }
    assert one.out == other.out;
    SameRest(Project(one.out, Instant), one.i, other.i);
    SameRest(Project(one.out, Reliable), one.r, other.r);
    SameRest(Project(one.out, Ordered), one.o, other.o);
  }

  lemma SameRest(head: seq<Message>, one: seq<Message>, other: seq<Message>)
    requires head + one == head + other
    ensures one == other
  {
    assert (head + one)[|head|..] == one && (head + other)[|head|..] == other;
  }

  /** The rounds fill a packet in the one way in which the queues are taken from
      the front, the space is kept and used up, and no kind gets ahead of another
      that could still write. */
  lemma FillIsTheFairOne(i: seq<Message>, r: seq<Message>, o: seq<Message>, room: nat, s: Split)
    requires Sorted(i, r, o)
    ensures s == Fill(i, r, o, room) <==> GoodSplit(s, i, r, o, room) && Fair(s.out, i, r, o, room)
  {
    hide Fill, GoodSplit, Fair;
    FillIsFair(i, r, o, room, Fill(i, r, o, room));
    if GoodSplit(s, i, r, o, room) && Fair(s.out, i, r, o, room) {
      OneWay(i, r, o, room, s, Fill(i, r, o, room));
    }
  }

  lemma PackUnfolds(i: seq<Message>, r: seq<Message>, o: seq<Message>, available: nat, q: Quotas, start: seq<Message>, fill: Split)
    requires QuotasFit(q, available) && start == QuotaPhase(i, r, o, available, q) && Costs(start) <= available
    requires fill == Fill(i[Greedy(i, Share(available, q.instant))..], r[Greedy(r, Share(available, q.reliable))..],
                          o[Greedy(o, Share(available, q.ordered))..], available - Costs(start))
    ensures Pack(i, r, o, available, q) == Split(start + fill.out, fill.i, fill.r, fill.o)
  {
    hide Fill, Costs, Greedy, Share, QuotaPhase, QuotasFit, Usable;
  }

  lemma Rejoined(start: seq<Message>, s: Split, fill: Split)
    ensures s == Split(start + fill.out, fill.i, fill.r, fill.o) <==>
            start <= s.out && Split(s.out[|start|..], s.i, s.r, s.o) == fill
  {
    if start <= s.out {
      assert s.out == start + s.out[|start|..];
    }
  }

  lemma SortedRests(i: seq<Message>, r: seq<Message>, o: seq<Message>, a: nat, b: nat, c: nat)
    requires Sorted(i, r, o) && a <= |i| && b <= |r| && c <= |o|
    ensures Sorted(i[a..], r[b..], o[c..])
  {
  }

  /** So the whole packing is determined: each kind's share first, and then, of
      what is left, the one fair way. */
  lemma PackIsTheFairOne(i: seq<Message>, r: seq<Message>, o: seq<Message>, available: nat, q: Quotas, start: seq<Message>, s: Split)
    requires Sorted(i, r, o) && QuotasFit(q, available) && start == QuotaPhase(i, r, o, available, q)
    ensures Costs(start) <= available
    ensures
      var i', r', o' := i[Greedy(i, Share(available, q.instant))..], r[Greedy(r, Share(available, q.reliable))..],
                        o[Greedy(o, Share(available, q.ordered))..];
      s == Pack(i, r, o, available, q) <==>
      && start <= s.out
      && GoodSplit(Split(s.out[|start|..], s.i, s.r, s.o), i', r', o', available - Costs(start))
      && Fair(s.out[|start|..], i', r', o', available - Costs(start))
  {
    hide Fill, GoodSplit, Fair, Costs, Pack, QuotaPhase, QuotasFit, Sorted, Greedy, Share;
    QuotaPhaseCost(i, r, o, available, q);
    var a, b, c := Greedy(i, Share(available, q.instant)), Greedy(r, Share(available, q.reliable)), Greedy(o, Share(available, q.ordered));
    var fill := Fill(i[a..], r[b..], o[c..], available - Costs(start));
    PackUnfolds(i, r, o, available, q, start, fill);
    Rejoined(start, s, fill);
    SortedRests(i, r, o, a, b, c);
    if start <= s.out {
      FillIsTheFairOne(i[a..], r[b..], o[c..], available - Costs(start), Split(s.out[|start|..], s.i, s.r, s.o));
    }
  }
}
