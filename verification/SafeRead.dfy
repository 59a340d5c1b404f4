/** The registry of live SQLite connections and the raw file access it guards.

    Closing any descriptor of a file cancels the process's POSIX locks on it, so a raw close is harmless only while
    no connection to that file is open. One lock covers every change; the machine below moves in the small steps
    made while it is held, by whichever thread holds it. */
module SafeRead {
  import opened Collections

  type Path = string

  /** `file` is the file SQLite has open (none for an in-memory database), `tracked` is `_hermes_tracked_path`. */
  datatype Conn = Conn(file: Option<Path>, tracked: Option<Path>, open: bool)

  /** What a thread asks for before it takes the lock. */
  datatype Op =
    | Connect(file: Option<Path>, key: Option<Path>)
    | Close(conn: nat)
    | ReadHeader(path: Path, force: bool)
    | OfflineAccess(path: Path)

  /** Where the lock holder stands. */
  datatype Spot =
    | Begin(op: Op)
    | Opened(conn: nat, resolved: Option<Path>)
    | Tagged(conn: nat, path: Path)
    | Untagged(conn: nat, path: Path)
    | Uncounted(conn: nat)
    | RawOpen(path: Path, force: bool)
    | Offline(path: Path)
    | Leaving

  datatype Lock = Free | Held(thread: nat, spot: Spot)

  datatype System = System(lock: Lock, registry: map<Path, nat>, conns: map<nat, Conn>, nextConn: nat)

  const INITIAL := System(Free, map[], map[], 0)

  /** `Go` takes the next step, `Fault` is the failure that step can meet, `Blind` opens a connection whose path query
      fails, `Touch` opens and closes one more descriptor inside the offline guard. */
  datatype Move = Enter(op: Op) | Go | Fault | Blind | Touch

  datatype Event = Event(thread: nat, move: Move)

  function Counted(registry: map<Path, nat>, path: Path): nat {
    if path in registry then registry[path] else 0
  }

  function Track(registry: map<Path, nat>, path: Path): map<Path, nat> {
    registry[path := Counted(registry, path) + 1]
  }

  /** The last release removes the key. */
  function Untrack(registry: map<Path, nat>, path: Path): map<Path, nat> {
    if Counted(registry, path) > 1 then registry[path := Counted(registry, path) - 1] else registry - {path}
  }

  function To(sys: System, spot: Spot): System {
    match sys.lock
    case Free => sys
    case Held(t, _) => sys.(lock := Held(t, spot))
  }

  function WithConn(sys: System, conn: nat, c: Conn): System {
    sys.(conns := sys.conns[conn := c])
  }

  /** The registry key of a connection: the caller's, or else what the path query answers. */
  function Resolved(file: Option<Path>, key: Option<Path>, move: Move): Option<Path> {
    if key.Some? then key else if move.Blind? then None else file
  }

  /** One step of the lock holder. */
  function Advance(sys: System, spot: Spot, move: Move): System {
    match spot
    case Begin(Connect(file, key)) =>
      if move.Fault? then To(sys, Leaving)
      else
        To(sys.(conns := sys.conns[sys.nextConn := Conn(file, None, true)], nextConn := sys.nextConn + 1),
           Opened(sys.nextConn, Resolved(file, key, move)))
    case Begin(Close(conn)) =>
      if conn !in sys.conns then To(sys, Leaving)
      else
        var c := sys.conns[conn];
        if c.tracked.Some? then To(WithConn(sys, conn, c.(tracked := None)), Untagged(conn, c.tracked.value))
        else To(sys, Uncounted(conn))
    case Begin(ReadHeader(path, force)) =>
      if (!force && path in sys.registry) || move.Fault? then To(sys, Leaving) else To(sys, RawOpen(path, force))
    case Begin(OfflineAccess(path)) => if path in sys.registry then To(sys, Leaving) else To(sys, Offline(path))
    case Opened(conn, resolved) =>
      if resolved.None? || conn !in sys.conns then To(sys, Leaving)
      else if move.Fault? then To(WithConn(sys, conn, sys.conns[conn].(open := false)), Leaving)
      else To(WithConn(sys, conn, sys.conns[conn].(tracked := resolved)), Tagged(conn, resolved.value))
    case Tagged(_, path) => To(sys.(registry := Track(sys.registry, path)), Leaving)
    case Untagged(conn, path) => To(sys.(registry := Untrack(sys.registry, path)), Uncounted(conn))
    case Uncounted(conn) =>
      To(if conn in sys.conns then WithConn(sys, conn, sys.conns[conn].(open := false)) else sys, Leaving)
    case RawOpen(_, _) => To(sys, Leaving)
    case Offline(_) => if move.Touch? then sys else To(sys, Leaving)
    case Leaving => sys.(lock := Free)
  }

  /** A thread that does not hold the lock can only wait for it. */
  function Step(sys: System, ev: Event): System {
    match sys.lock
    case Free => if ev.move.Enter? then sys.(lock := Held(ev.thread, Begin(ev.move.op))) else sys
    case Held(t, spot) => if t == ev.thread && !ev.move.Enter? then Advance(sys, spot, ev.move) else sys
  }

  function Run(sys: System, evs: seq<Event>): System
    decreases |evs|
  {
    if evs == [] then sys else Run(Step(sys, evs[0]), evs[1..])
  }

  /** The path whose raw descriptor this event closes without `force`. */
  function RawClose(sys: System, ev: Event): Option<Path> {
    if sys.lock.Held? && sys.lock.thread == ev.thread && !ev.move.Enter? then
      match sys.lock.spot
      case RawOpen(path, force) => if force then None else Some(path)
      case Offline(path) => if ev.move.Touch? then Some(path) else None
      case _ => None
    else None
  }

  // ----- What the registry means -----

  function Tracked(conns: map<nat, Conn>, path: Path): set<nat> {
    set c | c in conns && conns[c].open && conns[c].tracked == Some(path)
  }

  /** Open connections to a file, tracked or not. */
  function OpenOn(conns: map<nat, Conn>, path: Path): set<nat> {
    set c | c in conns && conns[c].open && conns[c].file == Some(path)
  }

  /** How far the registry is ahead of the tags in the middle of a step. */
  function Lead(lock: Lock, path: Path): int {
    match lock
    case Free => 0
    case Held(_, spot) =>
      match spot
      case Tagged(_, p) => if p == path then -1 else 0
      case Untagged(_, p) => if p == path then 1 else 0
      case _ => 0
  }

  /** The connection the lock holder is opening or closing. */
  function InHand(lock: Lock): Option<nat> {
    match lock
    case Free => None
    case Held(_, spot) =>
      match spot
      case Opened(c, _) => Some(c)
      case Tagged(c, _) => Some(c)
      case Untagged(c, _) => Some(c)
      case Uncounted(c) => Some(c)
      case _ => None
  }

  /** A connection is opened: the file SQLite opens and the key it is registered under. */
  datatype Opening = Opening(file: Option<Path>, resolved: Option<Path>)

  function OpenAs(sys: System, ev: Event): Option<Opening> {
    if sys.lock.Held? && sys.lock.thread == ev.thread && !ev.move.Enter? && !ev.move.Fault? then
      match sys.lock.spot
      case Begin(Connect(file, key)) => Some(Opening(file, Resolved(file, key, ev.move)))
      case _ => None
    else None
  }

  /** A connection to a file is registered under that file; one without a file, under anything. */
  predicate Right(o: Opening) {
    o.file.Some? ==> o.resolved == o.file
  }

  /** A connection is registered under its file, and one without a file not at all. */
  predicate Precise(o: Opening) {
    o.resolved == o.file
  }

  type Policy = Opening -> bool

  predicate Allowed(policy: Policy, sys: System, ev: Event) {
    var o := OpenAs(sys, ev);
    o.Some? ==> policy(o.value)
  }

  /** Every connection of the run is opened as the policy allows. */
  predicate Follows(policy: Policy, sys: System, evs: seq<Event>)
    decreases |evs|
  {
    evs == [] || (Allowed(policy, sys, evs[0]) && Follows(policy, Step(sys, evs[0]), evs[1..]))
  }

  ghost predicate SpotOk(sys: System, spot: Spot) {
    match spot
    case Opened(c, resolved) =>
      c in sys.conns && sys.conns[c].open && sys.conns[c].tracked.None? && Right(Opening(sys.conns[c].file, resolved))
    case Tagged(c, p) => c in sys.conns && sys.conns[c].open && sys.conns[c].tracked == Some(p)
    case Untagged(c, p) => c in sys.conns && sys.conns[c].tracked.None? && sys.conns[c].open
    case Uncounted(c) => c in sys.conns && sys.conns[c].tracked.None?
    case RawOpen(p, force) => force || p !in sys.registry
    case Offline(p) => p !in sys.registry
    case _ => true
  }

  ghost predicate TagOk(c: Conn) {
    c.tracked.Some? ==> c.open && Right(Opening(c.file, c.tracked))
  }

  /** Every open connection to a file is tagged, unless it is the one being opened or closed. */
  ghost predicate TaggedOrInHand(sys: System, c: nat)
    requires c in sys.conns
  {
    sys.conns[c].open && sys.conns[c].file.Some? && sys.conns[c].tracked.None? ==> InHand(sys.lock) == Some(c)
  }

  ghost predicate Inv(sys: System) {
    && (forall p | p in sys.registry :: sys.registry[p] > 0)
    && (forall p :: Counted(sys.registry, p) == |Tracked(sys.conns, p)| + Lead(sys.lock, p))
    && (forall c | c in sys.conns :: c < sys.nextConn && TagOk(sys.conns[c]) && TaggedOrInHand(sys, c))
    && (sys.lock.Held? ==> SpotOk(sys, sys.lock.spot))
  }

  lemma Retag(conns: map<nat, Conn>, c: nat, path: Path, p: Path)
    requires c in conns && conns[c].open && conns[c].tracked.None?
    ensures var conns' := conns[c := conns[c].(tracked := Some(path))];
            |Tracked(conns', p)| == |Tracked(conns, p)| + if p == path then 1 else 0
  {
    var conns' := conns[c := conns[c].(tracked := Some(path))];
    if p == path {
      assert Tracked(conns', p) == Tracked(conns, p) + {c};
    } else {
      assert Tracked(conns', p) == Tracked(conns, p);
    }
  }

  lemma UntrackedChange(conns: map<nat, Conn>, c: nat, conn: Conn, p: Path)
    requires c in conns ==> conns[c].tracked.None?
    requires conn.tracked.None?
    ensures Tracked(conns[c := conn], p) == Tracked(conns, p)
  {
  }

  /** A step that leaves registry and tags alone. */
  lemma QuietKeepsInv(sys: System, sys': System)
    requires Inv(sys) && sys'.registry == sys.registry && sys'.nextConn >= sys.nextConn
    requires forall p :: Lead(sys'.lock, p) == Lead(sys.lock, p) && Tracked(sys'.conns, p) == Tracked(sys.conns, p)
    requires forall c | c in sys'.conns :: c < sys'.nextConn && TagOk(sys'.conns[c]) && TaggedOrInHand(sys', c)
    requires sys'.lock.Held? ==> SpotOk(sys', sys'.lock.spot)
    ensures Inv(sys')
  {
  }

  lemma OpenKeepsInv(sys: System, file: Option<Path>, key: Option<Path>, move: Move)
    requires Inv(sys) && sys.lock.Held? && sys.lock.spot == Begin(Connect(file, key))
    requires move.Fault? || Right(Opening(file, Resolved(file, key, move)))
    ensures Inv(Advance(sys, sys.lock.spot, move))
  {
    var sys' := Advance(sys, sys.lock.spot, move);
    forall p
      ensures Tracked(sys'.conns, p) == Tracked(sys.conns, p)
    {
      UntrackedChange(sys.conns, sys.nextConn, Conn(file, None, true), p);
    }
    QuietKeepsInv(sys, sys');
  }

  lemma UntagKeepsInv(sys: System, conn: nat, move: Move)
    requires Inv(sys) && sys.lock.Held? && sys.lock.spot == Begin(Close(conn))
    ensures Inv(Advance(sys, sys.lock.spot, move))
  {
    if conn in sys.conns && sys.conns[conn].tracked.Some? {
      var sys' := Advance(sys, sys.lock.spot, move);
      var path := sys.conns[conn].tracked.value;
      assert sys'.conns[conn := sys'.conns[conn].(tracked := Some(path))] == sys.conns;
      forall p
        ensures Counted(sys'.registry, p) == |Tracked(sys'.conns, p)| + Lead(sys'.lock, p)
      {
        Retag(sys'.conns, conn, path, p);
      }
    }
  }

  lemma TagKeepsInv(sys: System, conn: nat, resolved: Option<Path>, move: Move)
    requires Inv(sys) && sys.lock.Held? && sys.lock.spot == Opened(conn, resolved)
    ensures Inv(Advance(sys, sys.lock.spot, move))
  {
    var sys' := Advance(sys, sys.lock.spot, move);
    if resolved.Some? && move.Fault? {
      forall p
        ensures Tracked(sys'.conns, p) == Tracked(sys.conns, p)
      {
        UntrackedChange(sys.conns, conn, sys.conns[conn].(open := false), p);
      }
      QuietKeepsInv(sys, sys');
    } else if resolved.Some? {
      forall p
        ensures Counted(sys'.registry, p) == |Tracked(sys'.conns, p)| + Lead(sys'.lock, p)
      {
        Retag(sys.conns, conn, resolved.value, p);
      }
    }
  }

  lemma ReleaseKeepsInv(sys: System, conn: nat, move: Move)
    requires Inv(sys) && sys.lock.Held? && sys.lock.spot == Uncounted(conn)
    ensures Inv(Advance(sys, sys.lock.spot, move))
  {
    var sys' := Advance(sys, sys.lock.spot, move);
    forall p
      ensures Tracked(sys'.conns, p) == Tracked(sys.conns, p)
    {
      UntrackedChange(sys.conns, conn, sys.conns[conn].(open := false), p);
    }
    QuietKeepsInv(sys, sys');
  }

  lemma CountKeepsInv(sys: System, move: Move)
    requires Inv(sys) && sys.lock.Held? && (sys.lock.spot.Tagged? || sys.lock.spot.Untagged?)
    ensures Inv(Advance(sys, sys.lock.spot, move))
  {
    var sys' := Advance(sys, sys.lock.spot, move);
    forall p
      ensures Counted(sys'.registry, p) == |Tracked(sys'.conns, p)| + Lead(sys'.lock, p)
    {
      assert Counted(sys.registry, p) == |Tracked(sys.conns, p)| + Lead(sys.lock, p);
    }
  }

  lemma StepKeepsInv(sys: System, ev: Event)
    requires Inv(sys) && Allowed(Right, sys, ev)
    ensures Inv(Step(sys, ev))
  {
    if sys.lock.Held? && sys.lock.thread == ev.thread && !ev.move.Enter? {
      match sys.lock.spot
      case Begin(Connect(file, key)) => OpenKeepsInv(sys, file, key, ev.move);
      case Begin(Close(conn)) => UntagKeepsInv(sys, conn, ev.move);
      case Opened(conn, resolved) => TagKeepsInv(sys, conn, resolved, ev.move);
      case Uncounted(conn) => ReleaseKeepsInv(sys, conn, ev.move);
      case Tagged(_, _) => CountKeepsInv(sys, ev.move);
      case Untagged(_, _) => CountKeepsInv(sys, ev.move);
      case _ => QuietKeepsInv(sys, Step(sys, ev));
    } else {
      QuietKeepsInv(sys, Step(sys, ev));
    }
  }

  lemma {:induction false} RunKeepsInv(sys: System, evs: seq<Event>)
    requires Inv(sys) && Follows(Right, sys, evs)
    ensures Inv(Run(sys, evs))
    decreases |evs|
  {
    if evs != [] {
      StepKeepsInv(sys, evs[0]);
      RunKeepsInv(Step(sys, evs[0]), evs[1..]);
    }
  }

  lemma InitialInv()
    ensures Inv(INITIAL)
  {
  }

  /** No connection is registered under anything but its own file. */
  ghost predicate PreciseTags(sys: System) {
    && (forall c | c in sys.conns && sys.conns[c].tracked.Some? :: sys.conns[c].tracked == sys.conns[c].file)
    && (sys.lock.Held? && sys.lock.spot.Opened? && sys.lock.spot.conn in sys.conns ==>
          Precise(Opening(sys.conns[sys.lock.spot.conn].file, sys.lock.spot.resolved)))
  }

  lemma {:induction false} RunKeepsPreciseTags(sys: System, evs: seq<Event>)
    requires PreciseTags(sys) && Follows(Precise, sys, evs)
    ensures PreciseTags(Run(sys, evs)) && Follows(Right, sys, evs)
    decreases |evs|
  {
    if evs != [] {
      RunKeepsPreciseTags(Step(sys, evs[0]), evs[1..]);
    }
  }

  /** Over every interleaving in which each connection is registered under its file: whenever the lock is free, the
      count of each path is the number of its open connections, and a path without any has no entry. */
  lemma FreeLockMeansExactCounts(evs: seq<Event>)
    requires Follows(Precise, INITIAL, evs)
    requires Run(INITIAL, evs).lock.Free?
    ensures var sys := Run(INITIAL, evs);
            forall p :: && Counted(sys.registry, p) == |OpenOn(sys.conns, p)|
                        && (p in sys.registry <==> OpenOn(sys.conns, p) != {})
  {
    InitialInv();
    RunKeepsPreciseTags(INITIAL, evs);
    RunKeepsInv(INITIAL, evs);
    var sys := Run(INITIAL, evs);
    forall p
      ensures Tracked(sys.conns, p) == OpenOn(sys.conns, p)
    {
      forall c | c in OpenOn(sys.conns, p)
        ensures c in Tracked(sys.conns, p)
      {
        assert TaggedOrInHand(sys, c);
      }
    }
  }

  /** Every raw descriptor closed without `force` belongs to a file no connection is open on at that moment, provided
      each connection to a file is registered under it. */
  lemma RawCloseIsHarmless(evs: seq<Event>, ev: Event)
    requires Follows(Right, INITIAL, evs)
    requires RawClose(Run(INITIAL, evs), ev).Some?
    ensures var sys := Run(INITIAL, evs);
            OpenOn(sys.conns, RawClose(sys, ev).value) == {}
  {
    InitialInv();
    RunKeepsInv(INITIAL, evs);
    var sys := Run(INITIAL, evs);
    var path := RawClose(sys, ev).value;
    assert Counted(sys.registry, path) == |Tracked(sys.conns, path)| + Lead(sys.lock, path);
    forall c | c in OpenOn(sys.conns, path)
      ensures c in Tracked(sys.conns, path)
    {
      assert TagOk(sys.conns[c]) && TaggedOrInHand(sys, c);
    }
  }

  // ----- The exact reach of that promise -----

  /** A connection to `file` registered under `resolved`, or under nothing, and then a probe of the file by another
      thread. */
  function ProbeRun(file: Path, resolved: Option<Path>): seq<Event> {
    var connect := Event(1, Enter(Connect(Some(file), resolved)));
    var open := Event(1, if resolved.Some? then Go else Blind);
    var count := if resolved.Some? then [Event(1, Go)] else [];
    [connect, open, Event(1, Go)] + count + [Event(1, Go), Event(2, Enter(ReadHeader(file, false))), Event(2, Go)]
  }

  lemma RunCons(policy: Policy, sys: System, ev: Event, evs: seq<Event>)
    ensures Run(sys, [ev] + evs) == Run(Step(sys, ev), evs)
    ensures Follows(policy, sys, [ev] + evs) <==> Allowed(policy, sys, ev) && Follows(policy, Step(sys, ev), evs)
  {
    assert ([ev] + evs)[1..] == evs;
  }

  /** Registered under another name or not at all, the file can be probed while it is open. */
  lemma ProbeHitsLiveConnection(policy: Policy, file: Path, resolved: Option<Path>)
    requires resolved != Some(file) && policy(Opening(Some(file), resolved))
    ensures var evs := ProbeRun(file, resolved);
            var sys := Run(INITIAL, evs);
            && Follows(policy, INITIAL, evs)
            && RawClose(sys, Event(2, Go)) == Some(file)
            && OpenOn(sys.conns, file) != {}
  {
    var go, probe := Event(1, Go), Event(2, Enter(ReadHeader(file, false)));
    var connect := Event(1, Enter(Connect(Some(file), resolved)));
    var open := Event(1, if resolved.Some? then Go else Blind);
    var e4 := [Event(2, Go)];
    var e3 := [probe] + e4;
    var e2 := [go] + e3;
    var e1 := if resolved.Some? then [go] + ([go] + e3) else e2;
    var s1 := Step(INITIAL, connect);
    var s2 := Step(s1, open);
    assert s2.conns == map[0 := Conn(Some(file), None, true)];
    var s3 := Step(s2, go);
    var s4 := if resolved.Some? then Step(s3, go) else s3;
    var s5 := Step(s4, go);
    assert s5 == System(Free, if resolved.Some? then map[resolved.value := 1] else map[],
                        map[0 := Conn(Some(file), resolved, true)], 1);
    var s6 := Step(s5, probe);
    var s7 := Step(s6, Event(2, Go));
    assert 0 in OpenOn(s7.conns, file);
    assert e4 == e4 + [] && Run(s7, []) == s7;
    RunCons(policy, s6, Event(2, Go), []);
    RunCons(policy, s5, probe, e4);
    RunCons(policy, s4, go, e3);
    if resolved.Some? {
      RunCons(policy, s3, go, [go] + e3);
    }
    RunCons(policy, s2, go, e1);
    RunCons(policy, s1, open, [go] + e1);
    RunCons(policy, INITIAL, connect, [open] + ([go] + e1));
    assert ProbeRun(file, resolved) == [connect] + ([open] + ([go] + e1));
  }

  /** No run under the policy closes a raw descriptor of a file with an open connection. */
  ghost predicate AlwaysHarmless(policy: Policy) {
    forall evs: seq<Event>, ev: Event ::
      Follows(policy, INITIAL, evs) && RawClose(Run(INITIAL, evs), ev).Some? ==>
        OpenOn(Run(INITIAL, evs).conns, RawClose(Run(INITIAL, evs), ev).value) == {}
  }

  lemma {:induction false} FollowsWeaker(policy: Policy, weaker: Policy, sys: System, evs: seq<Event>)
    requires Follows(policy, sys, evs) && forall o :: policy(o) ==> weaker(o)
    ensures Follows(weaker, sys, evs)
    decreases |evs|
  {
    if evs != [] {
      FollowsWeaker(policy, weaker, Step(sys, evs[0]), evs[1..]);
    }
  }

  /** The exact condition: raw closes are harmless in every run of every number of threads if and only if no
      connection to a file is ever registered under anything but that file. A caller's own tracking path and a failed
      path query are the two ways to break it. */
  lemma HarmlessIffRight(policy: Policy)
    ensures AlwaysHarmless(policy) <==> forall o :: policy(o) ==> Right(o)
  {
    if forall o :: policy(o) ==> Right(o) {
      forall evs: seq<Event>, ev: Event | Follows(policy, INITIAL, evs) && RawClose(Run(INITIAL, evs), ev).Some?
        ensures OpenOn(Run(INITIAL, evs).conns, RawClose(Run(INITIAL, evs), ev).value) == {}
      {
        FollowsWeaker(policy, Right, INITIAL, evs);
        RawCloseIsHarmless(evs, ev);
      }
    }
    if o :| policy(o) && !Right(o) {
      ProbeHitsLiveConnection(policy, o.file.value, o.resolved);
      assert !AlwaysHarmless(policy);
    }
  }

  // ----- One thread running a whole operation -----

  /** The lock holder keeps going until it lets go. */
  function Finish(sys: System, steps: nat): System
    decreases steps
  {
    if sys.lock.Free? || steps == 0 then sys else Finish(Advance(sys, sys.lock.spot, Go), steps - 1)
  }

  /** Longest operation: open, tag, count, release. */
  const STEPS := 5

  function Perform(sys: System, thread: nat, op: Op): System
    requires sys.lock.Free?
  {
    Finish(sys.(lock := Held(thread, Begin(op))), STEPS)
  }

  /** Closing a connection again decrements nothing. */
  lemma RepeatedCloseCountsOnce(sys: System, t: nat, u: nat, conn: nat)
    requires Inv(sys) && sys.lock.Free? && conn in sys.conns && sys.conns[conn].tracked.Some?
    ensures var once := Perform(sys, t, Close(conn));
            && once.lock.Free? && !once.conns[conn].open
            && once.registry == Untrack(sys.registry, sys.conns[conn].tracked.value)
            && Counted(once.registry, sys.conns[conn].tracked.value) ==
               Counted(sys.registry, sys.conns[conn].tracked.value) - 1
            && Perform(once, u, Close(conn)) == once
  {
    var path := sys.conns[conn].tracked.value;
    assert conn in Tracked(sys.conns, path);
    assert Counted(sys.registry, path) == |Tracked(sys.conns, path)| + Lead(sys.lock, path);
    CloseRuns(sys, t, conn);
    var once := Perform(sys, t, Close(conn));
    CloseRuns(once, u, conn);
    assert once.conns[conn := once.conns[conn].(open := false)] == once.conns;
  }

  lemma CloseRuns(sys: System, t: nat, conn: nat)
    requires sys.lock.Free? && conn in sys.conns
    ensures var c := sys.conns[conn];
            Perform(sys, t, Close(conn)) ==
            sys.(registry := if c.tracked.Some? then Untrack(sys.registry, c.tracked.value) else sys.registry,
                 conns := sys.conns[conn := c.(tracked := None, open := false)])
  {
    var c := sys.conns[conn];
    var s0 := sys.(lock := Held(t, Begin(Close(conn))));
    var s1 := Advance(s0, s0.lock.spot, Go);
    var s2 := if c.tracked.Some? then Advance(s1, s1.lock.spot, Go) else s1;
    var s3 := Advance(s2, s2.lock.spot, Go);
    var s4 := Advance(s3, s3.lock.spot, Go);
    assert s4.lock.Free?;
    assert Finish(s4, 0) == Finish(s4, 1) == s4;
    assert s3.conns == sys.conns[conn := c.(tracked := None, open := false)];
    if c.tracked.Some? {
      assert Finish(s3, 2) == s4 && Finish(s2, 3) == s4 && Finish(s1, 4) == s4 && Finish(s0, 5) == s4;
    } else {
      assert Finish(s3, 3) == s4 && Finish(s2, 4) == s4 && Finish(s0, 5) == s4;
    }
  }

  lemma ConnectRuns(sys: System, t: nat, file: Option<Path>, key: Option<Path>)
    requires sys.lock.Free?
    ensures var resolved := if key.Some? then key else file;
            Perform(sys, t, Connect(file, key)) ==
            sys.(registry := if resolved.Some? then Track(sys.registry, resolved.value) else sys.registry,
                 conns := sys.conns[sys.nextConn := Conn(file, resolved, true)],
                 nextConn := sys.nextConn + 1)
  {
    var resolved := if key.Some? then key else file;
    var s0 := sys.(lock := Held(t, Begin(Connect(file, key))));
    var s1 := Advance(s0, s0.lock.spot, Go);
    var s2 := Advance(s1, s1.lock.spot, Go);
    var s3 := Advance(s2, s2.lock.spot, Go);
    if resolved.Some? {
      var s4 := Advance(s3, s3.lock.spot, Go);
      assert s4.conns == sys.conns[sys.nextConn := Conn(file, resolved, true)];
      assert Finish(s4, 1) == s4 && Finish(s3, 2) == s4 && Finish(s2, 3) == s4 && Finish(s1, 4) == s4;
      assert Finish(s0, 5) == s4;
    } else {
      assert Finish(s3, 2) == s3 && Finish(s2, 3) == s3 && Finish(s1, 4) == s3;
      assert Finish(s0, 5) == s3;
    }
  }

  /** The module state as an object whose methods each run one critical section. */
  class ConnectionRegistry {
    var live: map<Path, nat>
    var conns: map<nat, Conn>
    var nextConn: nat

    ghost function View(): System
      reads this
    {
      System(Free, live, conns, nextConn)
    }

    constructor ()
      ensures View() == INITIAL
    {
      live, conns, nextConn := map[], map[], 0;
    }

    method TrackConnection(path: Path)
      modifies this
      ensures live == Track(old(live), path) && conns == old(conns) && nextConn == old(nextConn)
    {
      live := live[path := (if path in live then live[path] else 0) + 1];
    }

    method UntrackConnection(path: Path)
      modifies this
      ensures live == Untrack(old(live), path) && conns == old(conns) && nextConn == old(nextConn)
    {
      var count: int := if path in live then live[path] else 0;
      var remaining := count - 1;
      if remaining > 0 {
        live := live[path := remaining];
      } else {
        live := live - {path};
      }
    }

    method ConnectTracked(file: Option<Path>, key: Option<Path>, ghost thread: nat) returns (conn: nat)
      modifies this
      ensures View() == Perform(old(View()), thread, Connect(file, key)) && conn == old(nextConn)
    {
      ConnectRuns(View(), thread, file, key);
      conn := nextConn;
      nextConn := nextConn + 1;
      var resolved := if key.Some? then key else file;
      conns := conns[conn := Conn(file, resolved, true)];
      if resolved.Some? {
        TrackConnection(resolved.value);
      }
    }

    method CloseConnection(conn: nat, ghost thread: nat)
      requires conn in conns
      modifies this
      ensures View() == Perform(old(View()), thread, Close(conn))
    {
      CloseRuns(View(), thread, conn);
      var c := conns[conn];
      if c.tracked.Some? {
        conns := conns[conn := c.(tracked := None)];
        UntrackConnection(c.tracked.value);
      }
      conns := conns[conn := c.(tracked := None, open := false)];
    }

    /** Whether the header was read; refused while a connection is live, unless forced. */
    method ReadHeaderPreopen(path: Path, force: bool, readable: bool) returns (read: bool)
      requires Inv(View())
      ensures read ==> readable && (force || OpenOn(conns, path) == {})
      ensures !read ==> !readable || (!force && path in live)
      ensures PreciseTags(View()) && !read ==> !readable || (!force && OpenOn(conns, path) != {})
    {
      assert Counted(live, path) == |Tracked(conns, path)| + Lead(Free, path);
      assert OpenOn(conns, path) <= Tracked(conns, path) by {
        forall c | c in OpenOn(conns, path)
          ensures c in Tracked(conns, path)
        {
          assert TagOk(View().conns[c]) && TaggedOrInHand(View(), c);
        }
      }
      assert PreciseTags(View()) ==> Tracked(conns, path) <= OpenOn(conns, path);
      assert path in live ==> Tracked(conns, path) != {};
      read := (force || path !in live) && readable;
    }
  }
}
