/** What the semaphore of a pair is for: how many senders can be at work, and what its misuse does to that. */
module Permits {
  import opened Common
  import opened Mailbox
  import opened Runs
  import opened Transfer
  import opened TransferInvariant
  import opened Progress
  import opened Guards

  /** The count of a pair's semaphore and the tasks at work on the pair add up to `n`. */
  ghost predicate Permits(s: State, l: Link, n: int) {
    exists busy: set<int> :: AtWork(s, l, busy) && |busy| + s.sem(l) == n
  }

  ghost predicate AtWork(s: State, l: Link, busy: set<int>) {
    forall t: int :: t in busy <==> HeldBy(s.tasks(t)) == Some(l)
  }

  /** At most one task is at work on this pair. */
  ghost predicate Alone(s: State, l: Link) {
    forall t: int, u: int :: HeldBy(s.tasks(t)) == Some(l) == HeldBy(s.tasks(u)) ==> t == u
  }

  lemma FewElements(a: set<int>)
    ensures |a| <= 1 <==> forall t: int, u: int :: t in a && u in a ==> t == u
  {
    if |a| > 0 {
      SomeElement(a);
      var t: int :| t in a;
      var rest := a - {t};
      assert |a| == |rest| + 1;
      if |rest| > 0 {
        SomeElement(rest);
        var u: int :| u in rest;
        assert u in a && u != t;
      }
    }
  }

  lemma AloneCount(s: State, l: Link, busy: set<int>)
    requires AtWork(s, l, busy)
    ensures Alone(s, l) <==> |busy| <= 1
  {
    FewElements(busy);
  }

  /** In order, a pair has one permit. */
  lemma OnePermit(s: State, l: Link)
    requires TasksOk(s) && LinksOk(s)
    ensures Permits(s, l, 1)
  {
    assert LinkOk(s, l);
    forall t: int ensures HeldBy(s.tasks(t)) == Some(l) ==> s.owner(l) == t && s.sem(l) == 0 { assert TaskOk(s, t); }
    var busy := if s.sem(l) == 0 then {s.owner(l)} else {};
    assert AtWork(s, l, busy);
  }

  function One(b: bool): int { if b then 1 else 0 }

  function With(busy: set<int>, t: int, atWork: bool): set<int> {
    if atWork then busy + {t} else busy - {t}
  }

  lemma WithCount(busy: set<int>, t: int, atWork: bool)
    ensures |With(busy, t, atWork)| == |busy| + One(atWork) - One(t in busy)
  {
    assert t in busy ==> |busy - {t}| == |busy| - 1;
    assert t in busy ==> busy + {t} == busy;
    assert t !in busy ==> busy - {t} == busy;
  }

  /** A change of one task and of its pair's semaphore, seen by the count of permits. */
  lemma OneTaskPermits(s: State, s': State, t: int, l: Link, n: int, n': int)
    requires Permits(s, l, n)
    requires forall u: int :: u != t ==> s'.tasks(u) == s.tasks(u)
    requires s'.sem(l) + One(HeldBy(s'.tasks(t)) == Some(l)) - n' == s.sem(l) + One(HeldBy(s.tasks(t)) == Some(l)) - n
    ensures Permits(s', l, n')
  {
    var busy :| AtWork(s, l, busy) && |busy| + s.sem(l) == n;
    var atWork := HeldBy(s'.tasks(t)) == Some(l);
    var busy' := With(busy, t, atWork);
    WithCount(busy, t, atWork);
    forall u: int ensures u in busy' <==> HeldBy(s'.tasks(u)) == Some(l) {
      assert u != t ==> s'.tasks(u) == s.tasks(u);
    }
    assert AtWork(s', l, busy');
  }

  lemma PermitsStep(g: Layout, s: State, a: Action, l: Link, n: int)
    requires Permits(s, l, n) && Enabled(s, a)
    ensures Permits(Do(g, s, a), l, n)
  {
    var t := if a.Begin? || a.Acquire? || a.CopyByte? || a.Prepare? || a.GiveUp? || a.Command? || a.Release? then a.t else 0;
    OneTaskPermits(s, Do(g, s, a), t, l, n, n);
  }

  /** No step of any run makes or destroys a permit. */
  lemma {:induction false} PermitsConserved(g: Layout, s: State, run: seq<Action>, l: Link, n: int)
    requires Permits(s, l, n) && ValidRun(g, s, run)
    ensures Permits(After(g, s, run), l, n)
    decreases |run|
  {
    if run != [] {
      PermitsStep(g, s, run[0], l, n);
      PermitsConserved(g, Do(g, s, run[0]), run[1..], l, n);
    }
  }

  /** From whatever state, every sender that goes on after an interrupted wait adds a permit to its pair. */
  lemma HandOutAddsPermit(s: State, t: int, n: int)
    requires s.tasks(t).Waiting? && Permits(s, PairOf(s.tasks(t)), n)
    ensures Permits(DoHandOut(s, t), PairOf(s.tasks(t)), n + 1)
  {
    OneTaskPermits(s, DoHandOut(s, t), t, PairOf(s.tasks(t)), n, n + 1);
  }

  /** In order, the first such sender makes it two permits. */
  lemma InterruptedWaitAddsPermit(g: Layout, s: State, t: int)
    requires Inv(g, s) && s.tasks(t).Waiting?
    ensures Permits(DoHandOut(s, t), PairOf(s.tasks(t)), 2)
    ensures Alone(DoHandOut(s, t), PairOf(s.tasks(t))) <==> s.sem(PairOf(s.tasks(t))) == 1
  {
    var l := PairOf(s.tasks(t));
    OnePermit(s, l);
    HandOutAddsPermit(s, t, 1);
    var busy :| AtWork(DoHandOut(s, t), l, busy) && |busy| + s.sem(l) == 2;
    assert LinkOk(s, l);
    AloneCount(DoHandOut(s, t), l, busy);
  }

  // ---------- Runs in which waits are interrupted ----------

  /** A step of the machine, or a sender that goes on after an interrupted wait. */
  datatype Careless = Ordinary(a: Action) | GoOn(t: int)

  function NextCareless(g: Layout): (State, Careless) -> Option<State> {
    (s: State, c: Careless) =>
      match c
      case Ordinary(a) => if Enabled(s, a) then Some(Do(g, s, a)) else None
      case GoOn(t) => if s.tasks(t).Waiting? then Some(DoHandOut(s, t)) else None
  }

  ghost predicate ValidCareless(g: Layout, s: State, run: seq<Careless>) {
    Steps(NextCareless(g), s, run).Some?
  }

  function AfterCareless(g: Layout, s: State, run: seq<Careless>): State
    requires ValidCareless(g, s, run)
  {
    Steps(NextCareless(g), s, run).value
  }

  /** How often a sender of pair `l` goes on after an interrupted wait. */
  function Interruptions(g: Layout, s: State, run: seq<Careless>, l: Link): nat
    requires ValidCareless(g, s, run)
    decreases |run|
  {
    if run == [] then 0
    else
      (if run[0].GoOn? && PairOf(s.tasks(run[0].t)) == l then 1 else 0)
      + Interruptions(g, NextCareless(g)(s, run[0]).value, run[1..], l)
  }

  lemma CarelessStep(g: Layout, s: State, c: Careless, l: Link, n: int)
    requires Permits(s, l, n) && NextCareless(g)(s, c).Some?
    ensures Permits(NextCareless(g)(s, c).value, l, n + if c.GoOn? && PairOf(s.tasks(c.t)) == l then 1 else 0)
  {
    match c
    case Ordinary(a) => PermitsStep(g, s, a, l, n);
    case GoOn(t) =>
      if PairOf(s.tasks(t)) == l {
        HandOutAddsPermit(s, t, n);
      } else {
        OneTaskPermits(s, DoHandOut(s, t), t, l, n, n);
      }
  }

  /** Over every run the permits of a pair grow by its interruptions and by nothing else. */
  lemma {:induction false} InterruptionsAddPermits(g: Layout, s: State, run: seq<Careless>, l: Link, n: int)
    requires Permits(s, l, n) && ValidCareless(g, s, run)
    ensures Permits(AfterCareless(g, s, run), l, n + Interruptions(g, s, run, l))
    decreases |run|
  {
    if run != [] {
      CarelessStep(g, s, run[0], l, n);
      var more := if run[0].GoOn? && PairOf(s.tasks(run[0].t)) == l then 1 else 0;
      InterruptionsAddPermits(g, NextCareless(g)(s, run[0]).value, run[1..], l, n + more);
    }
  }

  /**
   * An interruption is never harmless and never heals. After any run with `k` of them on a pair its
   * senders are apart exactly while the semaphore counts at least `k`; so after one or more, while a
   * sender is at work nothing holds back the next: one that waits can go on at once, and then two are
   * at work.
   */
  lemma InterruptedWaitNeverHeals(g: Layout, s: State, run: seq<Careless>, l: Link, v: int, u: int)
    requires Inv(g, s) && ValidCareless(g, s, run)
    ensures var z := AfterCareless(g, s, run);
            var k := Interruptions(g, s, run, l);
            && (Alone(z, l) <==> z.sem(l) >= k)
            && (k > 0 && Alone(z, l) && HeldBy(z.tasks(v)) == Some(l) && z.tasks(u).Waiting? && PairOf(z.tasks(u)) == l ==>
                  Enabled(z, Acquire(u)) && !Alone(Do(g, z, Acquire(u)), l))
  {
    var k := Interruptions(g, s, run, l);
    OnePermit(s, l);
    InterruptionsAddPermits(g, s, run, l, 1);
    AloneBySem(AfterCareless(g, s, run), l, k);
    TwoAtWork(g, AfterCareless(g, s, run), l, v, u);
  }

  lemma AloneBySem(s: State, l: Link, k: int)
    requires Permits(s, l, 1 + k)
    ensures Alone(s, l) <==> s.sem(l) >= k
  {
    var busy :| AtWork(s, l, busy) && |busy| + s.sem(l) == 1 + k;
    AloneCount(s, l, busy);
  }

  lemma TwoAtWork(g: Layout, s: State, l: Link, v: int, u: int)
    ensures s.sem(l) > 0 && HeldBy(s.tasks(v)) == Some(l) && s.tasks(u).Waiting? && PairOf(s.tasks(u)) == l ==>
              Enabled(s, Acquire(u)) && !Alone(Do(g, s, Acquire(u)), l)
  {
    if s.sem(l) > 0 && HeldBy(s.tasks(v)) == Some(l) && s.tasks(u).Waiting? && PairOf(s.tasks(u)) == l {
      var z := Do(g, s, Acquire(u));
      assert HeldBy(z.tasks(v)) == Some(l) == HeldBy(z.tasks(u)) && u != v;
    }
  }

  /**
   * The half such a sender is handed is the one used last exactly when another sender holds the pair and
   * has not triggered yet; if that half's command is still in flight, filling it replaces its payload.
   */
  lemma InterruptedSenderOverwrites(g: Layout, s: State, t: int)
    requires GoodLayout(g) && Inv(g, s) && s.tasks(t).Waiting?
    ensures var l := PairOf(s.tasks(t));
            var s1 := DoHandOut(s, t);
            var data := s.tasks(t).data;
            var run := Copies(t, |Image(l.dst, data)|);
            && (s1.tasks(t).half == s.lastHalf(l) <==> s.sem(l) == 0 && !s.tasks(s.owner(l)).Sent?)
            && ValidRun(g, s1, run)
            && (s1.tasks(t).half == s.lastHalf(l) && l in s.unacked ==>
                  forall i: nat :: i < |data| ==>
                    ReadPayload(g, After(g, s1, run).mem, l.dst, TakeCmd(s.words, l).addr, i) == data[i])
  {
    var l := PairOf(s.tasks(t));
    assert LinkOk(s, l) && TaskOk(s, t) && TaskOk(s, s.owner(l));
    assert l in s.unacked ==> FlightOk(g, s, l);
    FillingReplaces(g, DoHandOut(s, t), t, l);
  }

  // ---------- Returning without the release ----------

  lemma {:induction false} CountsStayNatural(g: Layout, s: State, run: seq<Action>, l: Link)
    requires ValidRun(g, s, run) && s.sem(l) >= 0
    ensures After(g, s, run).sem(l) >= 0
    decreases |run|
  {
    if run != [] {
      CountsStayNatural(g, Do(g, s, run[0]), run[1..], l);
    }
  }

  /** A send that is refused and returns without its release blocks its pair: over no run does anybody get a half again. */
  lemma UnreleasedBlocksForever(g: Layout, s: State, t: int, run: seq<Action>, u: int)
    requires Inv(g, s) && Enabled(s, GiveUp(t))
    requires ValidRun(g, DoGiveUp(s, t).(sem := s.sem), run)
    ensures var l := PairOf(s.tasks(t));
            var z := After(g, DoGiveUp(s, t).(sem := s.sem), run);
            && HeldBy(z.tasks(u)) != Some(l)
            && (z.tasks(u).Waiting? && PairOf(z.tasks(u)) == l ==> !Enabled(z, Acquire(u)))
  {
    var l := PairOf(s.tasks(t));
    var s1 := DoGiveUp(s, t).(sem := s.sem);
    var z := After(g, s1, run);
    assert LinkOk(s, l);
    OnePermit(s, l);
    OneTaskPermits(s, s1, t, l, 1, 0);
    PermitsConserved(g, s1, run, l, 0);
    CountsStayNatural(g, s1, run, l);
    var busy :| AtWork(z, l, busy) && |busy| + z.sem(l) == 0;
    assert busy == {};
  }
}
