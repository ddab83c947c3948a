/** Who owns the payload of a planner callback.

    An eager payload belongs to the stream until its callback has run.  A payload enqueued while
    a graph is captured belongs to that graph's registry, because the graph may run its callback
    any number of times, and is released with the graph.  Graph handles may be reused. */
module PayloadRegistry {
  import opened Lists

  type Payload = nat
  type Graph = int

  /** `serial` tells one registry object from another with the same handle. */
  datatype Registry = Registry(serial: nat, payloads: seq<Payload>)

  datatype Capture = Failed | Invalidated | Idle | NullModel | Active(graph: Graph)

  /** registries: the global table; callbacks: what the runtime calls when a graph is destroyed;
      nodes: the host calls recorded in each live graph; stream: eager callbacks not yet run;
      deletes[p]: whether the callback of payload p deletes it after running; ran: the payloads
      planned with, in the order their callbacks ran. */
  datatype State = State(registries: map<Graph, Registry>, callbacks: map<Graph, nat>, nodes: map<Graph, seq<Payload>>,
                         stream: seq<Payload>, released: seq<Payload>, deletes: seq<bool>, ran: seq<Payload>,
                         nextPayload: nat, nextSerial: nat)

  const START := State(map[], map[], map[], [], [], [], [], 0, 0)

  datatype Action =
    | BeginCapture(graph: Graph)
    | Enqueue(capture: Capture, registered: bool, launched: bool)
    | RunCallback(index: nat)
    | Replay(graph: Graph)
    | Destroy(graph: Graph)

  /** What the runtime can do next. */
  predicate CanHappen(s: State, a: Action) {
    match a
    case BeginCapture(g) => g !in s.nodes
    case Enqueue(capture, _, _) => capture.Active? ==> capture.graph in s.nodes
    case RunCallback(index) => index < |s.stream|
    case Replay(g) => g in s.nodes
    case Destroy(g) => g in s.nodes
  }

  // ----- the operations as functions

  function Removed(s: seq<Payload>, i: nat): seq<Payload>
    requires i < |s|
  {
    s[..i] + s[i + 1..]
  }

  /** Keep a captured payload; on failure to bind the registry to the graph it is released. */
  function Retain(s: State, g: Graph, payload: Payload, registered: bool): (State, bool) {
    if g in s.registries then
      (s.(registries := s.registries[g := s.registries[g].(payloads := s.registries[g].payloads + [payload])]), true)
    else if registered then
      (s.(registries := s.registries[g := Registry(s.nextSerial, [payload])],
          callbacks := s.callbacks[g := s.nextSerial], nextSerial := s.nextSerial + 1), true)
    else
      (s.(released := s.released + [payload], nextSerial := s.nextSerial + 1), false)
  }

  /** One payload more, whose callback deletes it exactly when no graph keeps it. */
  function Made(s: State, deleteAfterRun: bool): State {
    s.(deletes := s.deletes + [deleteAfterRun], nextPayload := s.nextPayload + 1)
  }

  function EnqueueNext(s: State, capture: Capture, registered: bool, launched: bool): State {
    match capture
    case Failed => s
    case Invalidated => s
    case NullModel => s
    case Idle =>
      var made := Made(s, true);
      if launched then made.(stream := s.stream + [s.nextPayload]) else made.(released := s.released + [s.nextPayload])
    case Active(g) =>
      var (kept, ok) := Retain(Made(s, false), g, s.nextPayload, registered);
      if ok && launched && g in s.nodes then kept.(nodes := s.nodes[g := s.nodes[g] + [s.nextPayload]]) else kept
  }

  /** The runtime's destroy callback: release the registry it was bound to, if that is still the one in the table. */
  function Release(s: State, g: Graph): State {
    if g in s.callbacks && g in s.registries && s.registries[g].serial == s.callbacks[g]
    then s.(registries := s.registries - {g}, released := s.released + s.registries[g].payloads)
    else s
  }

  /** The callback, the same on a stream and in a graph: after planning it deletes its payload if told to. */
  function Callback(s: State, p: Payload): State {
    var done := s.(ran := s.ran + [p]);
    if p < |s.deletes| && s.deletes[p] then done.(released := s.released + [p]) else done
  }

  function Callbacks(s: State, payloads: seq<Payload>): State {
    if payloads == [] then s else Callback(Callbacks(s, payloads[..|payloads| - 1]), payloads[|payloads| - 1])
  }

  function Next(s: State, a: Action): State
    requires CanHappen(s, a)
  {
    match a
    case BeginCapture(g) => s.(nodes := s.nodes[g := []])
    case Enqueue(capture, registered, launched) => EnqueueNext(s, capture, registered, launched)
    case RunCallback(i) => Callback(s.(stream := Removed(s.stream, i)), s.stream[i])
    case Replay(g) => Callbacks(s, s.nodes[g])
    case Destroy(g) =>
      var r := Release(s, g);
      r.(nodes := r.nodes - {g}, callbacks := r.callbacks - {g})
  }

  // ----- the invariant

  ghost predicate HeldBy(s: State, p: Payload, g: Graph) {
    g in s.registries && p in s.registries[g].payloads
  }

  ghost predicate OnStream(s: State, p: Payload) { p in s.stream }

  ghost predicate IsReleased(s: State, p: Payload) { p in s.released }

  /** No owner lists a payload twice, and no payload has two owners. */
  ghost predicate OneOwner(s: State) {
    && NoDup(s.stream) && NoDup(s.released) && (forall g :: g in s.registries ==> NoDup(s.registries[g].payloads))
    && (forall p :: p in s.stream ==> p !in s.released)
    && (forall p, g :: HeldBy(s, p, g) ==> p !in s.stream && p !in s.released)
    && (forall p, g, h :: HeldBy(s, p, g) && HeldBy(s, p, h) ==> g == h)
  }

  ghost predicate Owned(s: State, p: Payload) {
    OnStream(s, p) || IsReleased(s, p) || exists g :: HeldBy(s, p, g)
  }

  /** Exactly the payloads made so far have an owner. */
  ghost predicate AllAccounted(s: State) {
    forall p: Payload :: p < s.nextPayload <==> Owned(s, p)
  }

  /** A live graph has at most one registry; each is bound to the graph's destruction, and only
      payloads it holds are recorded in the graph. */
  ghost predicate Bound(s: State) {
    && s.callbacks.Keys == s.registries.Keys && s.registries.Keys <= s.nodes.Keys
    && (forall g :: g in s.registries ==> s.registries[g].serial == s.callbacks[g] < s.nextSerial)
    && (forall g, h :: g in s.registries && h in s.registries && g != h ==>
        s.registries[g].serial != s.registries[h].serial)
    && forall g, p :: g in s.nodes && p in s.nodes[g] ==> HeldBy(s, p, g)
  }

  /** The callback of a payload deletes it exactly when it is on the stream and not in a registry. */
  ghost predicate Flagged(s: State) {
    && |s.deletes| == s.nextPayload
    && (forall p: Payload :: p in s.stream ==> p < s.nextPayload && s.deletes[p])
    && forall p: Payload, g :: HeldBy(s, p, g) ==> p < s.nextPayload && !s.deletes[p]
  }

  /** Every payload planned with was made before; an eager one is planned with at most once, and not
      while its callback is still pending. */
  ghost predicate RanOnce(s: State) {
    && (forall p :: p in s.ran ==> p < s.nextPayload)
    && (forall p :: p in s.stream ==> p !in s.ran)
    && forall i, j :: 0 <= i < j < |s.ran| && s.ran[i] == s.ran[j] && s.ran[i] < |s.deletes| ==> !s.deletes[s.ran[i]]
  }

  ghost predicate Inv(s: State) { OneOwner(s) && AllAccounted(s) && Bound(s) && Flagged(s) && RanOnce(s) }

  // ----- preservation

  lemma RemovedMembers(s: seq<Payload>, i: nat)
    requires i < |s| && NoDup(s)
    ensures NoDup(Removed(s, i)) && forall p :: p in Removed(s, i) <==> p in s && p != s[i]
  {
    assert s == s[..i] + [s[i]] + s[i + 1..];
  }

  lemma CallbackKeeps(s: State, i: nat)
    requires Inv(s) && i < |s.stream|
    ensures Inv(Next(s, RunCallback(i)))
  {
    var s', p0 := Next(s, RunCallback(i)), s.stream[i];
    assert p0 in s.stream;
    RemovedMembers(s.stream, i);
    NoDupAppend(s.released, [p0]);
    hide Removed;
    assert forall p, g :: HeldBy(s', p, g) <==> HeldBy(s, p, g);
    forall p ensures Owned(s', p) <==> Owned(s, p) {
      assert IsReleased(s', p) <==> IsReleased(s, p) || p == p0;
      assert OnStream(s', p) <==> OnStream(s, p) && p != p0;
      if g :| HeldBy(s, p, g) { assert HeldBy(s', p, g); }
    }
  }

  lemma DestroyKeeps(s: State, g: Graph)
    requires Inv(s) && g in s.nodes
    ensures Inv(Next(s, Destroy(g)))
  {
    var s' := Next(s, Destroy(g));
    var gone := if g in s.registries then s.registries[g].payloads else [];
    assert forall p :: p in gone <==> HeldBy(s, p, g);
    NoDupAppend(s.released, gone);
    assert s'.released == s.released + gone;
    assert forall p, h :: HeldBy(s', p, h) <==> HeldBy(s, p, h) && h != g;
    forall p ensures Owned(s', p) <==> Owned(s, p) {
      assert IsReleased(s', p) <==> IsReleased(s, p) || HeldBy(s, p, g);
      if h :| HeldBy(s, p, h) { assert h != g ==> HeldBy(s', p, h); }
    }
  }

  lemma EagerKeeps(s: State, launched: bool)
    requires Inv(s)
    ensures Inv(EnqueueNext(s, Idle, false, launched))
  {
    var s' := EnqueueNext(s, Idle, false, launched);
    assert !Owned(s, s.nextPayload);
    forall i | 0 <= i < |s.ran| ensures s.ran[i] < s.nextPayload { assert s.ran[i] in s.ran; }
    assert forall p, g :: HeldBy(s', p, g) <==> HeldBy(s, p, g);
    assert forall p :: Owned(s', p) <==> Owned(s, p) || p == s.nextPayload;
  }

  lemma CapturedKeeps(s: State, g: Graph, registered: bool, launched: bool)
    requires Inv(s) && g in s.nodes
    ensures Inv(EnqueueNext(s, Active(g), registered, launched))
  {
    assert !Owned(s, s.nextPayload);
    if g in s.registries || registered {
      KeptInRegistry(s, g, registered, launched);
    } else {
      var s' := EnqueueNext(s, Active(g), registered, launched);
      NoDupAppend(s.released, [s.nextPayload]);
      assert forall p, h :: HeldBy(s', p, h) <==> HeldBy(s, p, h);
      assert forall p :: Owned(s', p) <==> Owned(s, p) || p == s.nextPayload;
    }
  }

  /** s' is s with one more payload in g's registry. */
  ghost predicate Grown(s: State, s': State, g: Graph) {
    var held := if g in s.registries then s.registries[g].payloads else [];
    && s'.stream == s.stream && s'.released == s.released
    && s'.nextPayload == s.nextPayload + 1 && s'.deletes == s.deletes + [false]
    && s'.registries.Keys == s.registries.Keys + {g} && s'.registries[g].payloads == held + [s.nextPayload]
    && forall h :: h in s.registries && h != g ==> s'.registries[h] == s.registries[h]
  }

  lemma GrownHolds(s: State, s': State, g: Graph)
    requires Grown(s, s', g)
    ensures forall p, h :: HeldBy(s', p, h) <==> HeldBy(s, p, h) || (p == s.nextPayload && h == g)
  {
  }

  lemma GrownOneOwner(s: State, s': State, g: Graph)
    requires OneOwner(s) && Grown(s, s', g) && !Owned(s, s.nextPayload)
    ensures OneOwner(s')
  {
    GrownHolds(s, s', g);
    var held := if g in s.registries then s.registries[g].payloads else [];
    assert s.nextPayload in held ==> HeldBy(s, s.nextPayload, g);
    NoDupAppend(held, [s.nextPayload]);
    hide HeldBy;
  }

  lemma GrownAccounted(s: State, s': State, g: Graph)
    requires AllAccounted(s) && Grown(s, s', g)
    ensures AllAccounted(s')
  {
    GrownHolds(s, s', g);
    hide HeldBy;
    assert HeldBy(s', s.nextPayload, g);
    forall p ensures Owned(s', p) <==> Owned(s, p) || p == s.nextPayload {
      if h :| HeldBy(s, p, h) { assert HeldBy(s', p, h); }
      if h :| HeldBy(s', p, h) { assert HeldBy(s, p, h) || p == s.nextPayload; }
    }
  }

  lemma GrownFlagged(s: State, s': State, g: Graph)
    requires Flagged(s) && Grown(s, s', g)
    ensures Flagged(s')
  {
    GrownHolds(s, s', g);
    hide HeldBy;
  }

  lemma GrownBound(s: State, s': State, g: Graph)
    requires Bound(s) && Grown(s, s', g) && g in s.nodes
    requires s'.nodes == s.nodes || s'.nodes == s.nodes[g := s.nodes[g] + [s.nextPayload]]
    requires if g in s.registries
             then s'.callbacks == s.callbacks && s'.nextSerial == s.nextSerial
                 && s'.registries[g].serial == s.registries[g].serial
             else s'.callbacks == s.callbacks[g := s.nextSerial] && s'.nextSerial == s.nextSerial + 1
                  && s'.registries[g].serial == s.nextSerial
    ensures Bound(s')
  {
    GrownHolds(s, s', g);
    hide HeldBy;
  }

  lemma KeptInRegistry(s: State, g: Graph, registered: bool, launched: bool)
    requires Inv(s) && g in s.nodes && !Owned(s, s.nextPayload) && (g in s.registries || registered)
    ensures Inv(EnqueueNext(s, Active(g), registered, launched))
  {
    hide OneOwner, AllAccounted, Flagged, Bound, HeldBy, Owned;
    var s' := EnqueueNext(s, Active(g), registered, launched);
    assert Grown(s, s', g);
    GrownOneOwner(s, s', g);
    GrownAccounted(s, s', g);
    GrownFlagged(s, s', g);
    GrownBound(s, s', g);
  }

  /** Running payloads whose callbacks do not delete them only plans with them. */
  lemma {:induction false} CallbacksKeep(s: State, payloads: seq<Payload>)
    requires forall i :: 0 <= i < |payloads| ==> payloads[i] < |s.deletes| && !s.deletes[payloads[i]]
    ensures Callbacks(s, payloads) == s.(ran := s.ran + payloads)
  {
    if payloads == [] {
      assert s.ran + payloads == s.ran;
    } else {
      var n := |payloads| - 1;
      CallbacksKeep(s, payloads[..n]);
      assert s.ran + payloads == s.ran + payloads[..n] + [payloads[n]];
    }
  }

  lemma RecordedNotDeleting(s: State, g: Graph)
    requires Inv(s) && g in s.nodes
    ensures forall i :: 0 <= i < |s.nodes[g]| ==> s.nodes[g][i] < |s.deletes| && !s.deletes[s.nodes[g][i]]
  {
    var payloads := s.nodes[g];
    forall i | 0 <= i < |payloads| ensures payloads[i] < |s.deletes| && !s.deletes[payloads[i]] {
      assert payloads[i] in payloads;
      assert HeldBy(s, payloads[i], g);
    }
  }

  /** A replay plans with every recorded payload, in order, and releases nothing: the payloads of a
      graph are flagged to outlive their callbacks. */
  lemma ReplayKeeps(s: State, g: Graph)
    requires Inv(s) && g in s.nodes
    ensures Next(s, Replay(g)) == s.(ran := s.ran + s.nodes[g])
  {
    RecordedNotDeleting(s, g);
    CallbacksKeep(s, s.nodes[g]);
  }

  lemma ReplayInv(s: State, g: Graph)
    requires Inv(s) && g in s.nodes
    ensures Inv(Next(s, Replay(g)))
  {
    RecordedNotDeleting(s, g);
    ReplayKeeps(s, g);
    var s', payloads := Next(s, Replay(g)), s.nodes[g];
    hide Callbacks;
    assert forall p, h :: HeldBy(s', p, h) <==> HeldBy(s, p, h);
    assert forall p :: Owned(s', p) <==> Owned(s, p);
    forall p | p in payloads ensures p < s.nextPayload && p !in s.stream { assert HeldBy(s, p, g); }
    assert RanOnce(s');
  }

  lemma StepKeeps(s: State, a: Action)
    requires Inv(s) && CanHappen(s, a)
    ensures Inv(Next(s, a))
  {
    match a
    case BeginCapture(g) =>
      var s' := Next(s, a);
      assert forall p, h :: HeldBy(s', p, h) <==> HeldBy(s, p, h);
      assert forall p :: Owned(s', p) <==> Owned(s, p);
    case Enqueue(capture, registered, launched) =>
      match capture {
        case Idle => EagerKeeps(s, launched);
        case Active(g) => CapturedKeeps(s, g, registered, launched);
        case _ =>
      }
    case RunCallback(i) => CallbackKeeps(s, i);
    case Replay(g) => ReplayInv(s, g);
    case Destroy(g) => DestroyKeeps(s, g);
  }

  // ----- where a new payload goes

  /** The stream is the one owner of p. */
  ghost predicate OnlyOnStream(s: State, p: Payload) {
    OnStream(s, p) && !IsReleased(s, p) && forall g :: !HeldBy(s, p, g)
  }

  ghost predicate OnlyReleased(s: State, p: Payload) {
    IsReleased(s, p) && !OnStream(s, p) && forall g :: !HeldBy(s, p, g)
  }

  ghost predicate OnlyHeldBy(s: State, p: Payload, g: Graph) {
    HeldBy(s, p, g) && !IsReleased(s, p) && !OnStream(s, p)
  }

  /** A payload enqueued outside a capture is on the stream exactly if its callback was launched, and
      otherwise released.  One enqueued in a capture is in the graph's registry, recorded in the graph
      exactly if it was launched; only without a registry for it is it released.  In every other case
      no payload is made. */
  ghost predicate Placed(s: State, s': State, capture: Capture, registered: bool, launched: bool) {
    var p := s.nextPayload;
    match capture
    case Idle =>
      && s'.nextPayload == p + 1 && s'.nodes == s.nodes
      && (if launched then OnlyOnStream(s', p) else OnlyReleased(s', p))
    case Active(g) =>
      && s'.nextPayload == p + 1 && g in s.nodes && g in s'.nodes
      && (forall h :: h in s.nodes && h != g ==> h in s'.nodes && s'.nodes[h] == s.nodes[h])
      && if g in s.registries || registered
         then OnlyHeldBy(s', p, g) && s'.nodes[g] == s.nodes[g] + if launched then [p] else []
         else OnlyReleased(s', p) && s'.nodes[g] == s.nodes[g]
    case _ => s' == s
  }

  lemma EnqueuePlaces(s: State, capture: Capture, registered: bool, launched: bool)
    requires Inv(s) && CanHappen(s, Enqueue(capture, registered, launched))
    ensures Placed(s, EnqueueNext(s, capture, registered, launched), capture, registered, launched)
  {
    var s', p := EnqueueNext(s, capture, registered, launched), s.nextPayload;
    StepKeeps(s, Enqueue(capture, registered, launched));
    assert !Owned(s, p);
    if capture.Idle? {
      assert forall g :: HeldBy(s', p, g) <==> HeldBy(s, p, g);
    } else if capture.Active? && !(capture.graph in s.registries || registered) {
      assert forall g :: HeldBy(s', p, g) <==> HeldBy(s, p, g);
    }
  }

  // ----- whole runs

  ghost predicate IsRun(states: seq<State>, actions: seq<Action>) {
    && |states| == |actions| + 1 && states[0] == START
    && forall k :: 0 <= k < |actions| ==>
         CanHappen(states[k], actions[k]) && states[k + 1] == Next(states[k], actions[k])
  }

  /** In every reachable state each payload made so far has exactly one owner. */
  lemma {:induction false} RunInv(states: seq<State>, actions: seq<Action>, k: nat)
    requires IsRun(states, actions) && k < |states|
    ensures Inv(states[k])
  {
    if k > 0 {
      RunInv(states, actions, k - 1);
      assert states[k] == Next(states[k - 1], actions[k - 1]);
      StepKeeps(states[k - 1], actions[k - 1]);
    }
  }

  lemma RecordedUntilDestroyed(s: State, a: Action, g: Graph, p: Payload)
    requires Inv(s) && CanHappen(s, a) && g in s.nodes && p in s.nodes[g]
    ensures a == Destroy(g) ==> IsReleased(Next(s, a), p)
    ensures a != Destroy(g) ==> g in Next(s, a).nodes && p in Next(s, a).nodes[g]
  {
    assert HeldBy(s, p, g);
    if a.Replay? { ReplayKeeps(s, a.graph); }
    hide OneOwner, AllAccounted, Callbacks;
  }

  /** A payload recorded in a graph stays with the graph's registry, unreleased and safe to replay,
      for as long as the graph is not destroyed. */
  lemma {:induction false} SafeToReplay(states: seq<State>, actions: seq<Action>, k: nat, n: nat, g: Graph, p: Payload)
    requires IsRun(states, actions) && k <= n < |states| && g in states[k].nodes && p in states[k].nodes[g]
    requires forall m :: k <= m < n ==> actions[m] != Destroy(g)
    ensures g in states[n].nodes && p in states[n].nodes[g] && HeldBy(states[n], p, g) && !IsReleased(states[n], p)
  {
    RunInv(states, actions, n);
    if k < n {
      SafeToReplay(states, actions, k, n - 1, g, p);
      RunInv(states, actions, n - 1);
      assert states[n] == Next(states[n - 1], actions[n - 1]);
      RecordedUntilDestroyed(states[n - 1], actions[n - 1], g, p);
    }
  }

  lemma PendingUntilRun(s: State, a: Action, p: Payload)
    requires Inv(s) && CanHappen(s, a) && p in s.stream
    ensures if a.RunCallback? && s.stream[a.index] == p then IsReleased(Next(s, a), p) else p in Next(s, a).stream
  {
    if a.RunCallback? { RemovedMembers(s.stream, a.index); }
    if a.Replay? { ReplayKeeps(s, a.graph); }
    hide Removed, OneOwner, AllAccounted, Bound, Callbacks;
  }

  /** An eager payload stays on the stream, unreleased, until its own callback has run. */
  lemma {:induction false} SafeToRun(states: seq<State>, actions: seq<Action>, k: nat, n: nat, p: Payload)
    requires IsRun(states, actions) && k <= n < |states| && p in states[k].stream
    requires forall m :: k <= m < n && actions[m].RunCallback? ==> !Runs(states[m], actions[m], p)
    ensures p in states[n].stream && !IsReleased(states[n], p)
  {
    RunInv(states, actions, n);
    if k < n {
      SafeToRun(states, actions, k, n - 1, p);
      RunInv(states, actions, n - 1);
      assert states[n] == Next(states[n - 1], actions[n - 1]);
      PendingUntilRun(states[n - 1], actions[n - 1], p);
    }
  }

  ghost predicate Runs(s: State, a: Action, p: Payload)
    requires a.RunCallback?
  {
    a.index < |s.stream| && s.stream[a.index] == p
  }

  /** Released payloads stay released: none comes back into use. */
  lemma ReleasedForGood(s: State, a: Action)
    requires CanHappen(s, a)
    ensures s.released <= Next(s, a).released
  {
    if a.Replay? { CallbacksRelease(s, s.nodes[a.graph]); }
  }

  lemma {:induction false} CallbacksRelease(s: State, payloads: seq<Payload>)
    ensures s.released <= Callbacks(s, payloads).released
  {
    if payloads != [] { CallbacksRelease(s, payloads[..|payloads| - 1]); }
  }

  /** The action runs the callback of p. */
  ghost predicate Calls(s: State, a: Action, p: Payload)
    requires CanHappen(s, a)
  {
    match a
    case RunCallback(i) => s.stream[i] == p
    case Replay(g) => p in s.nodes[g]
    case _ => false
  }

  /** No callback, eager or replayed, ever runs on a released payload; an eager one releases its own
      and a replayed one none. */
  lemma NoUseAfterRelease(states: seq<State>, actions: seq<Action>, k: nat, p: Payload)
    requires IsRun(states, actions) && k < |actions| && Calls(states[k], actions[k], p)
    ensures !IsReleased(states[k], p)
    ensures IsReleased(states[k + 1], p) <==> actions[k].RunCallback?
  {
    var s, a := states[k], actions[k];
    RunInv(states, actions, k);
    assert states[k + 1] == Next(s, a);
    if a.Replay? {
      assert HeldBy(s, p, a.graph);
      ReplayKeeps(s, a.graph);
    } else {
      PendingUntilRun(s, a, p);
    }
  }

  /** What an action plans with: a callback with its own payload, a replay with every payload recorded
      in the graph, in order, and nothing else with any. */
  lemma PlansWith(s: State, a: Action)
    requires Inv(s) && CanHappen(s, a)
    ensures Next(s, a).ran == s.ran + match a
                                      case RunCallback(i) => [s.stream[i]]
                                      case Replay(g) => s.nodes[g]
                                      case _ => []
  {
    if a.Replay? { ReplayKeeps(s, a.graph); }
  }

  /** In every run an eager payload is planned with at most once. */
  lemma EagerAtMostOnce(states: seq<State>, actions: seq<Action>, k: nat, i: nat, j: nat)
    requires IsRun(states, actions) && k < |states| && i < j < |states[k].ran|
    requires states[k].ran[i] < |states[k].deletes| && states[k].deletes[states[k].ran[i]]
    ensures states[k].ran[i] != states[k].ran[j]
  {
    RunInv(states, actions, k);
  }

  /** In every run, a payload launched outside a capture is safe until its own callback has run ... */
  lemma LaunchedIsSafe(states: seq<State>, actions: seq<Action>, k: nat, n: nat, registered: bool)
    requires IsRun(states, actions) && k < n < |states| && actions[k] == Enqueue(Idle, registered, true)
    requires forall m :: k < m < n && actions[m].RunCallback? ==> !Runs(states[m], actions[m], states[k].nextPayload)
    ensures states[k].nextPayload in states[n].stream && !IsReleased(states[n], states[k].nextPayload)
  {
    RunInv(states, actions, k);
    assert states[k + 1] == Next(states[k], actions[k]);
    EnqueuePlaces(states[k], Idle, registered, true);
    SafeToRun(states, actions, k + 1, n, states[k].nextPayload);
  }

  /** ... and one launched in a capture until its graph is destroyed. */
  lemma CapturedIsSafe(states: seq<State>, actions: seq<Action>, k: nat, n: nat, g: Graph, registered: bool)
    requires IsRun(states, actions) && k < n < |states| && actions[k] == Enqueue(Active(g), registered, true)
    requires registered || g in states[k].registries
    requires forall m :: k < m < n ==> actions[m] != Destroy(g)
    ensures g in states[n].nodes && states[k].nextPayload in states[n].nodes[g]
    ensures HeldBy(states[n], states[k].nextPayload, g) && !IsReleased(states[n], states[k].nextPayload)
  {
    RunInv(states, actions, k);
    assert CanHappen(states[k], actions[k]) && states[k + 1] == Next(states[k], actions[k]);
    EnqueuePlaces(states[k], Active(g), registered, true);
    SafeToReplay(states, actions, k + 1, n, g, states[k].nextPayload);
  }

  /** When the stream has drained and all graphs are gone, every payload ever made has been
      released, and exactly once. */
  lemma NothingLeaks(states: seq<State>, actions: seq<Action>, k: nat)
    requires IsRun(states, actions) && k < |states| && states[k].stream == [] && states[k].nodes == map[]
    ensures IsPermutation(states[k].released, states[k].nextPayload)
  {
    RunInv(states, actions, k);
    var s := states[k];
    var made: seq<Payload> := seq(s.nextPayload, i => i);
    forall p: Payload ensures p in s.released <==> p in made {
      if p in s.released { assert Owned(s, p); assert made[p] == p; }
      if p in made { assert Owned(s, p); }
    }
    NoDupSameLength(s.released, made);
    forall i | 0 <= i < |s.released| ensures 0 <= s.released[i] < s.nextPayload { assert s.released[i] in made; }
  }

  // ----- the host side as it runs

  class Host {
    var registries: map<Graph, Registry>
    var callbacks: map<Graph, nat>
    var nodes: map<Graph, seq<Payload>>
    var stream: seq<Payload>
    var released: seq<Payload>
    var deletes: seq<bool>
    var ran: seq<Payload>
    var nextPayload: nat
    var nextSerial: nat

    ghost function View(): State
      reads this
    {
      State(registries, callbacks, nodes, stream, released, deletes, ran, nextPayload, nextSerial)
    }

    constructor ()
      ensures View() == START && Inv(View())
    {
      registries, callbacks, nodes, stream, released, deletes, ran := map[], map[], map[], [], [], [], [];
      nextPayload, nextSerial := 0, 0;
    }

    /** Put a captured payload into the graph's registry, making and binding one if need be. */
    method RetainPayload(g: Graph, payload: Payload, registered: bool) returns (ok: bool)
      modifies this
      ensures (View(), ok) == Retain(old(View()), g, payload, registered)
    {
      if g !in registries {
        registries := registries[g := Registry(nextSerial, [])];
        nextSerial := nextSerial + 1;
        if !registered {
          registries := registries - {g};
          assert registries == old(registries);
          released := released + [payload];
          return false;
        }
        callbacks := callbacks[g := registries[g].serial];
        assert registries[g].payloads + [payload] == [payload];
      }
      registries := registries[g := registries[g].(payloads := registries[g].payloads + [payload])];
      assert g !in old(registries) ==> registries == old(registries)[g := Registry(old(nextSerial), [payload])];
      return true;
    }

    /** Make a payload and hand it to the stream or the graph; false stands for a raised error. */
    method EnqueuePlan(capture: Capture, registered: bool, launched: bool) returns (ok: bool)
      requires Inv(View()) && CanHappen(View(), Enqueue(capture, registered, launched))
      modifies this
      ensures View() == Next(old(View()), Enqueue(capture, registered, launched)) && Inv(View())
      ensures Placed(old(View()), View(), capture, registered, launched)
      ensures ok <==>
                launched && (capture.Idle? || (capture.Active? && (registered || capture.graph in old(registries))))
    {
      StepKeeps(View(), Enqueue(capture, registered, launched));
      EnqueuePlaces(View(), capture, registered, launched);
      hide Inv, Placed;
      if capture.Failed? || capture.Invalidated? || capture.NullModel? {
        return false;
      }
      var payload := nextPayload;
      nextPayload, deletes := nextPayload + 1, deletes + [!capture.Active?];
      if capture.Active? {
        var kept := RetainPayload(capture.graph, payload, registered);
        if !kept {
          return false;
        }
        if launched {
          nodes := nodes[capture.graph := nodes[capture.graph] + [payload]];
        }
      } else if launched {
        stream := stream + [payload];
      } else {
        released := released + [payload];
      }
      return launched;
    }

    /** What the runtime calls for a payload, once or many times. */
    method RunCallback(payload: Payload)
      requires payload < |deletes|
      modifies this`released, this`ran
      ensures View() == Callback(old(View()), payload)
    {
      ran := ran + [payload];
      if deletes[payload] {
        released := released + [payload];
      }
    }

    /** The stream reaches an eager callback. */
    method RunEager(index: nat)
      requires Inv(View()) && index < |stream|
      modifies this
      ensures View() == Next(old(View()), Action.RunCallback(index)) && Inv(View())
    {
      StepKeeps(View(), Action.RunCallback(index));
      assert stream[index] in stream;
      hide OneOwner, AllAccounted, Bound;
      var payload := stream[index];
      stream := stream[..index] + stream[index + 1..];
      RunCallback(payload);
    }

    /** A graph is replayed: the callbacks of all its recorded payloads run. */
    method ReplayGraph(g: Graph)
      requires Inv(View()) && g in nodes
      modifies this`released, this`ran
      ensures View() == Next(old(View()), Replay(g)) == old(View()).(ran := old(ran) + nodes[g]) && Inv(View())
    {
      ReplayKeeps(View(), g);
      ReplayInv(View(), g);
      RecordedNotDeleting(View(), g);
      hide Inv;
      ghost var before := View();
      for i := 0 to |nodes[g]|
        invariant View() == Callbacks(before, nodes[g][..i]) && deletes == before.deletes && nodes == before.nodes
      {
        assert nodes[g][..i + 1][..i] == nodes[g][..i];
        RunCallback(nodes[g][i]);
      }
      assert nodes[g][..|nodes[g]|] == nodes[g];
    }

    /** The runtime destroys a graph and calls back with the registry bound to it. */
    method DestroyGraph(g: Graph)
      requires Inv(View()) && g in nodes
      modifies this
      ensures View() == Next(old(View()), Destroy(g)) && Inv(View())
    {
      StepKeeps(View(), Destroy(g));
      hide Inv;
      if g in callbacks {
        var serial := callbacks[g];
        if g in registries && registries[g].serial == serial {
          released := released + registries[g].payloads;
          registries := registries - {g};
        }
      }
      nodes := nodes - {g};
      callbacks := callbacks - {g};
    }
  }
}
