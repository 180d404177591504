/** `SessionCleaner`: the background thread that evicts sessions idle for half an hour. The
    thread as written is a state machine over the registry and its private copy of it; the sweep
    it is meant to perform is one pass that evicts exactly the idle sessions. */
module SessionCleaner {
  import opened Common
  import opened Errors
  import opened Sessions

  const SessionLengthMin := 30
  const MinLengthMillis := 60_000
  const SessionLengthMillis := SessionLengthMin * MinLengthMillis

  /** The sweep's test: the session was last accessed at least a session length before `now`. */
  predicate Idle(s: Session, now: int) {
    now - s.lastAccessedMillis >= SessionLengthMillis
  }

  // ------------------------------------------------------------------------------------------
  // The sweep as intended

  /** One sweep at `now`: every idle session goes, every other stays as it was. */
  function SweepPass(reg: Registry, now: int): (r: Registry)
    ensures forall t :: t in r <==> t in reg && !Idle(reg[t], now)
    ensures forall t | t in r :: r[t] == reg[t]
  {
    map t | t in reg && !Idle(reg[t], now) :: reg[t]
  }

  /** A second sweep at the same instant finds nothing more to evict. */
  lemma SweepIdempotent(reg: Registry, now: int)
    ensures SweepPass(SweepPass(reg, now), now) == SweepPass(reg, now)
  {
  }

  /** A later sweep keeps no session an earlier one would have evicted. */
  lemma SweepMonotone(reg: Registry, t1: int, t2: int)
    requires t1 <= t2
    ensures SweepPass(reg, t2).Keys <= SweepPass(reg, t1).Keys
  {
  }

  /** A session used within the last half hour survives the sweep; the token of a swept
      session is then refused like any unknown token. */
  lemma SweepThenResolve(reg: Registry, now: int, token: Token, later: int, role: Role)
    requires token in reg
    ensures !Idle(reg[token], now) ==> token in SweepPass(reg, now)
    ensures Idle(reg[token], now) ==>
      GetService(SweepPass(reg, now), token, later, role)
        == Stamped(SweepPass(reg, now), Err(Error(InvalidLogin, TimedOut)))
  {
  }

  /** What the sweeper sees happen: its own wake-ups, logins and logouts on other threads, and
      `stop()`. */
  datatype Event = Tick(now: int) | Put(token: Token, session: Session) | Remove(token: Token) | Stop

  /** An event's effect on the registry when every wake-up performs one sweep pass. */
  function Apply(reg: Registry, e: Event): Registry {
    match e
    case Tick(now) => SweepPass(reg, now)
    case Put(t, s) => reg[t := s]
    case Remove(t) => reg - {t}
    case Stop => reg
  }

  /** The registry after the events, in order. */
  function Replay(reg: Registry, events: seq<Event>): Registry
    decreases |events|
  {
    if events == [] then reg else Apply(Replay(reg, events[..|events| - 1]), events[|events| - 1])
  }

  /** The corrected thread: one sweep pass per wake-up, and `stop()` ends the run at once. It
      handles events up to and including the first `Stop` and no further; right after a wake-up
      no idle session is left. */
  method Run(reg0: Registry, events: seq<Event>) returns (reg: Registry, handled: nat)
    ensures handled <= |events|
    ensures forall i | 0 <= i < handled - 1 :: events[i] != Stop
    ensures handled < |events| ==> 0 < handled && events[handled - 1] == Stop
    ensures reg == Replay(reg0, events[..handled])
    ensures 0 < handled && events[handled - 1].Tick? ==>
      forall t | t in reg :: !Idle(reg[t], events[handled - 1].now)
  {
    reg := reg0;
    handled := 0;
    var working := true;
    while working && handled < |events|
      invariant handled <= |events|
      invariant reg == Replay(reg0, events[..handled])
      invariant working ==> forall i | 0 <= i < handled :: events[i] != Stop
      invariant !working ==> 0 < handled && events[handled - 1] == Stop && forall i | 0 <= i < handled - 1 :: events[i] != Stop
      invariant 0 < handled && events[handled - 1].Tick? ==> forall t | t in reg :: !Idle(reg[t], events[handled - 1].now)
    {
      var e := events[handled];
      match e {
        case Tick(now) => reg := SweepPass(reg, now);
        case Put(t, s) => reg := reg[t := s];
        case Remove(t) => reg := reg - {t};
        case Stop => working := false;
      }
      assert events[..handled + 1][..handled] == events[..handled];
      handled := handled + 1;
    }
  }

  // ------------------------------------------------------------------------------------------
  // The thread as written

  /** Where the thread is: about to test `isWorking` (Outer), about to test the sizes of the two
      maps (Inner), or returned from `run`. */
  datatype Phase = Outer | Inner | Exited

  datatype Sweeper = Sweeper(registry: Registry, copy: Registry, phase: Phase, working: bool)

  /** `run()` on a fresh cleaner: the copy is empty and `isWorking` is set. */
  function Start(reg: Registry): Sweeper {
    Sweeper(reg, map[], Outer, true)
  }

  /** The session a copied entry refers to. The copy holds the same ClientSession objects as the
      registry, so while its token is registered the entry sees every access; once the token is
      gone the entry keeps the session as it was last seen. */
  function Seen(s: Sweeper, t: Token): Session
    requires t in s.copy
  {
    if t in s.registry then s.registry[t] else s.copy[t]
  }

  /** One step. A wake-up runs the next test of the thread: the outer loop's `isWorking` test
      followed by `putAll`, or the inner loop's size test followed by one pass of the `for` loop,
      which evicts idle entries from both maps. The inner loop never tests `isWorking`. */
  function StepAsWritten(s: Sweeper, e: Event): Sweeper {
    match e
    case Put(t, session) => s.(registry := s.registry[t := session])
    case Remove(t) => s.(registry := s.registry - {t})
    case Stop => s.(working := false)
    case Tick(now) =>
      match s.phase
      case Exited => s
      case Outer =>
        if !s.working then s.(phase := Exited)
        else s.(copy := s.copy + s.registry, phase := Inner)
      case Inner =>
        if |s.copy| != |s.registry| then s.(phase := Outer)
        else
          var idle := set t | t in s.copy && Idle(Seen(s, t), now);
          s.(registry := s.registry - idle, copy := s.copy - idle)
  }

  function RunAsWritten(s: Sweeper, events: seq<Event>): Sweeper
    decreases |events|
  {
    if events == [] then s else RunAsWritten(StepAsWritten(s, events[0]), events[1..])
  }

  /** The sweeper's own wake-ups at the given clock readings, with nothing else happening. */
  function Ticks(clock: seq<int>): (r: seq<Event>)
    ensures |r| == |clock|
    ensures forall i | 0 <= i < |r| :: r[i] == Tick(clock[i])
  {
    seq(|clock|, i requires 0 <= i < |clock| => Tick(clock[i]))
  }

  lemma StrictSubsetSmaller(a: set<Token>, b: set<Token>)
    requires a < b
    ensures |a| < |b|
  {
    var extra := b - a;
    assert b == a + extra;
    assert extra != {};
  }

  /** The copy holds a token the registry no longer has: the situation a logout leaves behind. */
  predicate Stuck(s: Sweeper) {
    s.registry.Keys < s.copy.Keys && s.phase != Exited && s.working
  }

  /** While stuck, a wake-up never evicts: `putAll` cannot remove the stale token, so the
      sizes never match and the `for` loop never runs again. */
  lemma StuckTick(s: Sweeper, now: int)
    requires Stuck(s)
    ensures Stuck(StepAsWritten(s, Tick(now)))
    ensures StepAsWritten(s, Tick(now)).registry == s.registry
  {
    if s.phase == Inner {
      StrictSubsetSmaller(s.registry.Keys, s.copy.Keys);
      assert |s.registry.Keys| == |s.registry| && |s.copy.Keys| == |s.copy|;
    } else {
      assert (s.copy + s.registry).Keys == s.copy.Keys + s.registry.Keys;
    }
  }

  lemma {:induction false} StuckForever(s: Sweeper, clock: seq<int>)
    requires Stuck(s)
    ensures RunAsWritten(s, Ticks(clock)).registry == s.registry
    decreases |clock|
  {
    if clock != [] {
      StuckTick(s, clock[0]);
      assert Ticks(clock)[1..] == Ticks(clock[1..]);
      StuckForever(StepAsWritten(s, Tick(clock[0])), clock[1..]);
    }
  }

  /** Counterexample: tokens "a" and "b" are registered at time 0 and copied; "a" logs out. From
      then on no wake-up, however late, evicts "b", although "b" has been idle for a full session
      length by `SessionLengthMillis`, and a sweep pass would evict it then. */
  lemma LogoutFreezesSweeper(clock: seq<int>)
    ensures var s0 := Start(map["a" := Session(AdminService, 0), "b" := Session(AdminService, 0)]);
      var s := RunAsWritten(s0, [Tick(0), Remove("a")]);
      && "b" in RunAsWritten(s, Ticks(clock)).registry
      && "b" !in SweepPass(s.registry, SessionLengthMillis)
  {
    var s0 := Start(map["a" := Session(AdminService, 0), "b" := Session(AdminService, 0)]);
    var s1 := StepAsWritten(s0, Tick(0));
    assert s1.copy.Keys == {"a", "b"};
    var s := RunAsWritten(s0, [Tick(0), Remove("a")]);
    assert s == StepAsWritten(s1, Remove("a"));
    assert s.registry.Keys == {"b"};
    assert "a" in s.copy.Keys;
    StuckForever(s, clock);
  }

  /** Both maps hold the same tokens and the thread is in the inner loop. */
  predicate Quiet(s: Sweeper) {
    s.copy.Keys == s.registry.Keys && s.phase == Inner
  }

  /** While quiet, neither a wake-up nor `stop()` gets the thread out of the inner loop. */
  lemma QuietStep(s: Sweeper, e: Event)
    requires Quiet(s) && (e.Tick? || e.Stop?)
    ensures Quiet(StepAsWritten(s, e))
  {
    if e.Tick? {
      assert |s.registry.Keys| == |s.registry| && |s.copy.Keys| == |s.copy|;
      var idle := set t | t in s.copy && Idle(Seen(s, t), e.now);
      assert (s.registry - idle).Keys == s.registry.Keys - idle;
      assert (s.copy - idle).Keys == s.copy.Keys - idle;
    }
  }

  lemma {:induction false} QuietForever(s: Sweeper, clock: seq<int>)
    requires Quiet(s)
    ensures RunAsWritten(s, Ticks(clock)).phase == Inner
    decreases |clock|
  {
    if clock != [] {
      QuietStep(s, Tick(clock[0]));
      assert Ticks(clock)[1..] == Ticks(clock[1..]);
      QuietForever(StepAsWritten(s, Tick(clock[0])), clock[1..]);
    }
  }

  /** Counterexample: one token registered, the thread starts and enters its inner loop, then
      `stop()` is called. No later wake-up returns from `run`. */
  lemma StopIgnored(clock: seq<int>)
    ensures var s := RunAsWritten(Start(map["b" := Session(AdminService, 0)]), [Tick(0), Tick(0), Stop]);
      && !s.working
      && RunAsWritten(s, Ticks(clock)).phase != Exited
  {
    var s0 := Start(map["b" := Session(AdminService, 0)]);
    var s1 := StepAsWritten(s0, Tick(0));
    assert s1.copy.Keys == {"b"} == s1.registry.Keys;
    assert Quiet(s1);
    QuietStep(s1, Tick(0));
    var s2 := StepAsWritten(s1, Tick(0));
    QuietStep(s2, Stop);
    var s := RunAsWritten(s0, [Tick(0), Tick(0), Stop]);
    assert s == StepAsWritten(s2, Stop);
    QuietForever(s, clock);
  }
}
