/** What every reachable state of a release target satisfies, and the local rules each
    durable write obeys. The order in which deployment records were created is kept
    beside the store as `born`; it is not on disk. */
module TargetInvariant {
  import opened Json
  import opened ReleaseTarget

  type Births = map<string, nat>

  // ---------------------------------------------------------------- the live chain

  /** The link of this record leads to a record created earlier. */
  ghost predicate IsLinkedAt(ds: map<string, Deployment>, born: Births, dep: string)
    requires dep in ds && dep in born
  {
    IsLive(ds[dep].previous) ==>
      var prior := ds[dep].previous.value.bound.deploymentRef;
      prior in ds && prior in born && born[prior] < born[dep]
  }

  ghost predicate IsLinked(ds: map<string, Deployment>, born: Births) {
    && born.Keys == ds.Keys
    && forall dep {:trigger IsLinkedAt(ds, born, dep)} :: dep in ds ==> IsLinkedAt(ds, born, dep)
  }

  ghost predicate IsKnown(ds: map<string, Deployment>, p: Option<Pointer>) {
    IsLive(p) ==> p.value.bound.deploymentRef in ds
  }

  /** The pointers met by following `previous_current`, topmost first. */
  ghost function Chain(ds: map<string, Deployment>, born: Births, p: Option<Pointer>): seq<Pointer>
    requires IsLinked(ds, born) && IsKnown(ds, p)
    decreases if IsLive(p) then born[p.value.bound.deploymentRef] + 1 else 0
  {
    if IsLive(p) then
      assert IsLinkedAt(ds, born, p.value.bound.deploymentRef);
      [p.value] + Chain(ds, born, ds[p.value.bound.deploymentRef].previous)
    else []
  }

  /** Everything on the chain is a live pointer to a record, in strictly falling order
      of creation. So the chain is finite and meets no deployment twice. */
  lemma {:induction false} ChainFalls(ds: map<string, Deployment>, born: Births, p: Option<Pointer>)
    requires IsLinked(ds, born) && IsKnown(ds, p)
    ensures forall i :: 0 <= i < |Chain(ds, born, p)| ==>
              Chain(ds, born, p)[i].Live? && Chain(ds, born, p)[i].bound.deploymentRef in ds
    ensures forall i, j :: 0 <= i < j < |Chain(ds, born, p)| ==>
              born[Chain(ds, born, p)[j].bound.deploymentRef] < born[Chain(ds, born, p)[i].bound.deploymentRef]
    decreases if IsLive(p) then born[p.value.bound.deploymentRef] + 1 else 0
  {
    if IsLive(p) {
      var previous := ds[p.value.bound.deploymentRef].previous;
      assert IsLinkedAt(ds, born, p.value.bound.deploymentRef);
      ChainFalls(ds, born, previous);
      var chain, rest := Chain(ds, born, p), Chain(ds, born, previous);
      forall i, j | 0 <= i < j < |chain|
        ensures born[chain[j].bound.deploymentRef] < born[chain[i].bound.deploymentRef]
      {
        assert chain[j] == rest[j - 1];
        if i == 0 {
          assert rest[0] == previous.value;
        } else {
          assert chain[i] == rest[i - 1];
        }
      }
    }
  }

  /** New records and status changes leave an existing chain as it is. */
  lemma {:induction false} ChainFrame(ds: map<string, Deployment>, born: Births,
                                      ds': map<string, Deployment>, born': Births, p: Option<Pointer>)
    requires IsLinked(ds, born) && IsLinked(ds', born') && IsKnown(ds, p)
    requires forall dep :: dep in ds ==>
               dep in ds' && ds'[dep].previous == ds[dep].previous && born'[dep] == born[dep]
    ensures IsKnown(ds', p) && Chain(ds', born', p) == Chain(ds, born, p)
    decreases if IsLive(p) then born[p.value.bound.deploymentRef] + 1 else 0
  {
    if IsLive(p) {
      assert IsLinkedAt(ds, born, p.value.bound.deploymentRef);
      ChainFrame(ds, born, ds', born', ds[p.value.bound.deploymentRef].previous);
    }
  }

  // ---------------------------------------------------------------- order

  /** A pointer that may be stored: this target's, and live only for a known record
      created before `bound`, agreeing with it on all seven bound fields. */
  ghost predicate IsLink(s: Store, born: Births, p: Option<Pointer>, bound: nat) {
    match p
    case None => true
    case Some(Inactive(t)) => t == s.targetRef
    case Some(Live(b, _)) =>
      && b.deploymentRef in s.deployments && b.deploymentRef in born
      && born[b.deploymentRef] < bound
      && b == s.deployments[b.deploymentRef].bound
  }

  /** The record sits in the order: filed under its own reference, of this target,
      its predecessor created before it. */
  ghost predicate IsPlaced(s: Store, born: Births, dep: string)
    requires dep in s.deployments && dep in born
  {
    && s.deployments[dep].bound.deploymentRef == dep
    && s.deployments[dep].bound.targetRef == s.targetRef
    && born[dep] < |born|
    && IsLink(s, born, s.deployments[dep].previous, born[dep])
  }

  ghost predicate IsOrdered(s: Store, born: Births) {
    && born.Keys == s.deployments.Keys
    && (forall dep {:trigger IsPlaced(s, born, dep)} :: dep in s.deployments ==> IsPlaced(s, born, dep))
    && IsLink(s, born, s.current, |born|)
  }

  lemma OrderedIsLinked(s: Store, born: Births)
    requires IsOrdered(s, born)
    ensures IsLinked(s.deployments, born) && IsKnown(s.deployments, s.current)
  {
    forall dep | dep in s.deployments
      ensures IsLinkedAt(s.deployments, born, dep)
    {
      assert IsPlaced(s, born, dep);
    }
  }

  /** The chain from the current pointer. */
  ghost function LiveChain(s: Store, born: Births): seq<Pointer>
    requires IsOrdered(s, born)
  {
    OrderedIsLinked(s, born);
    Chain(s.deployments, born, s.current)
  }

  ghost predicate IsFirstRecord(s: Store, dep: string, d: Deployment) {
    && dep !in s.deployments
    && d.bound.deploymentRef == dep && d.bound.targetRef == s.targetRef
    && d.status.Prepared?
    && d.previous == s.current
  }

  ghost predicate IsActivation(s: Store, dep: string, d: Deployment) {
    && dep in s.deployments
    && s.deployments[dep].status.Prepared?
    && Matches(s.current, s.deployments[dep])
    && d.status.Activated?
    && d.(status := Prepared) == s.deployments[dep]
  }

  /** The pointer goes from a prepared deployment's predecessor to that deployment. */
  ghost predicate IsPush(s: Store, p: Pointer) {
    && p.Live?
    && p.bound.deploymentRef in s.deployments
    && var d := s.deployments[p.bound.deploymentRef];
    && d.status.Prepared?
    && p.bound == d.bound
    && s.current == d.previous
  }

  /** The pointer goes from a deployment back to its predecessor. */
  ghost predicate IsPop(s: Store, p: Pointer) {
    && IsLive(s.current)
    && s.current.value.bound.deploymentRef in s.deployments
    && p == Restored(s.deployments[s.current.value.bound.deploymentRef], s.targetRef)
  }

  /** What a write may do to records and to the pointer. */
  ghost predicate IsOrderly(s: Store, w: Write) {
    match w
    case PutDeployment(dep, d) => IsFirstRecord(s, dep, d) || IsActivation(s, dep, d)
    case PutCurrent(p) => IsPush(s, p) || IsPop(s, p)
    case _ => true
  }

  /** A new record is born last. */
  function NextBirths(s: Store, born: Births, w: Write): Births {
    if w.PutDeployment? && w.ref !in s.deployments then born[w.ref := |born|] else born
  }

  lemma NewBirth(born: Births, dep: string)
    requires dep !in born
    ensures |born[dep := |born|]| == |born| + 1
  {
    assert born[dep := |born|].Keys == born.Keys + {dep};
    assert |born[dep := |born|]| == |born[dep := |born|].Keys|;
    assert |born| == |born.Keys|;
  }

  lemma LinkKept(s: Store, born: Births, s': Store, born': Births, p: Option<Pointer>, bound: nat, bound': nat)
    requires IsLink(s, born, p, bound) && bound <= bound'
    requires s'.targetRef == s.targetRef
    requires forall dep :: dep in s.deployments && dep in born ==>
               dep in s'.deployments && s'.deployments[dep].bound == s.deployments[dep].bound
               && dep in born' && born'[dep] == born[dep]
    ensures IsLink(s', born', p, bound')
  {
  }

  lemma FirstRecordKeepsOrder(s: Store, born: Births, dep: string, d: Deployment)
    requires IsOrdered(s, born) && IsFirstRecord(s, dep, d)
    ensures IsOrdered(Apply(s, PutDeployment(dep, d)), born[dep := |born|])
  {
    var s', born' := Apply(s, PutDeployment(dep, d)), born[dep := |born|];
    NewBirth(born, dep);
    LinkKept(s, born, s', born', s.current, |born|, |born|);
    forall e | e in s'.deployments
      ensures IsPlaced(s', born', e)
    {
      if e in s.deployments {
        assert IsPlaced(s, born, e);
        LinkKept(s, born, s', born', s.deployments[e].previous, born[e], born[e]);
      }
    }
  }

  lemma ActivationKeepsOrder(s: Store, born: Births, dep: string, d: Deployment)
    requires IsOrdered(s, born) && IsActivation(s, dep, d)
    ensures IsOrdered(Apply(s, PutDeployment(dep, d)), born)
  {
    var s' := Apply(s, PutDeployment(dep, d));
    assert s'.deployments.Keys == s.deployments.Keys;
    assert d.bound == s.deployments[dep].bound && d.previous == s.deployments[dep].previous;
    LinkKept(s, born, s', born, s.current, |born|, |born|);
    forall e | e in s'.deployments
      ensures IsPlaced(s', born, e)
    {
      assert IsPlaced(s, born, e);
      LinkKept(s, born, s', born, s.deployments[e].previous, born[e], born[e]);
    }
  }

  lemma PointerKeepsOrder(s: Store, born: Births, p: Pointer)
    requires IsOrdered(s, born) && (IsPush(s, p) || IsPop(s, p))
    ensures IsOrdered(Apply(s, PutCurrent(p)), born)
  {
    var s' := Apply(s, PutCurrent(p));
    forall e | e in s'.deployments
      ensures IsPlaced(s', born, e)
    {
      assert IsPlaced(s, born, e);
      LinkKept(s, born, s', born, s.deployments[e].previous, born[e], born[e]);
    }
  }

  lemma OrderKept(s: Store, born: Births, w: Write)
    requires IsOrdered(s, born) && IsOrderly(s, w)
    ensures IsOrdered(Apply(s, w), NextBirths(s, born, w))
  {
    match w
    case PutDeployment(dep, d) =>
      if dep in s.deployments {
        ActivationKeepsOrder(s, born, dep, d);
      } else {
        FirstRecordKeepsOrder(s, born, dep, d);
      }
    case PutCurrent(p) => PointerKeepsOrder(s, born, p);
    case _ =>
      var s' := Apply(s, w);
      assert s'.deployments == s.deployments && s'.current == s.current && s'.targetRef == s.targetRef;
      forall e | e in s'.deployments
        ensures IsPlaced(s', born, e)
      {
        assert IsPlaced(s, born, e);
        LinkKept(s, born, s', born, s.deployments[e].previous, born[e], born[e]);
      }
  }

  // ---------------------------------------------------------------- the stack

  datatype StackStep = Push(pointer: Pointer) | Pop | Stay

  ghost function Effect(s: Store, w: Write): StackStep {
    if !w.PutCurrent? then Stay else if IsPush(s, w.pointer) then Push(w.pointer) else Pop
  }

  ghost predicate CanStep(chain: seq<Pointer>, step: StackStep) {
    match step
    case Push(p) =>
      p.Live? && forall i :: 0 <= i < |chain| ==>
        chain[i].Live? && chain[i].bound.deploymentRef != p.bound.deploymentRef
    case Pop => chain != []
    case Stay => true
  }

  ghost function StackAfter(chain: seq<Pointer>, step: StackStep): seq<Pointer>
    requires CanStep(chain, step)
  {
    match step
    case Push(p) => [p] + chain
    case Pop => chain[1..]
    case Stay => chain
  }

  lemma PushEffect(s: Store, born: Births, p: Pointer)
    requires IsOrdered(s, born) && IsPush(s, p)
    requires IsOrdered(Apply(s, PutCurrent(p)), born)
    ensures CanStep(LiveChain(s, born), Push(p))
    ensures LiveChain(Apply(s, PutCurrent(p)), born) == [p] + LiveChain(s, born)
  {
    var dep := p.bound.deploymentRef;
    assert IsPlaced(s, born, dep);
    OrderedIsLinked(s, born);
    ChainFalls(s.deployments, born, s.current);
    var chain := LiveChain(s, born);
    forall i | 0 <= i < |chain|
      ensures chain[i].Live? && chain[i].bound.deploymentRef != dep
    {
      assert chain[0] == s.current.value;
      if i > 0 {
        assert born[chain[i].bound.deploymentRef] < born[chain[0].bound.deploymentRef];
      }
    }
  }

  lemma PopEffect(s: Store, born: Births, p: Pointer)
    requires IsOrdered(s, born) && IsPop(s, p)
    requires IsOrdered(Apply(s, PutCurrent(p)), born)
    ensures !IsPush(s, p)
    ensures LiveChain(s, born) != []
    ensures LiveChain(Apply(s, PutCurrent(p)), born) == LiveChain(s, born)[1..]
  {
    var top := s.current.value.bound.deploymentRef;
    var previous := s.deployments[top].previous;
    assert IsPlaced(s, born, top);
    OrderedIsLinked(s, born);
    assert LiveChain(s, born) == [s.current.value] + Chain(s.deployments, born, previous);
    if p.Live? {
      var dep := p.bound.deploymentRef;
      assert IsPlaced(s, born, dep);
    }
  }

  lemma StayEffect(s: Store, born: Births, w: Write)
    requires IsOrdered(s, born) && IsOrderly(s, w) && !w.PutCurrent?
    requires IsOrdered(Apply(s, w), NextBirths(s, born, w))
    ensures LiveChain(Apply(s, w), NextBirths(s, born, w)) == LiveChain(s, born)
  {
    var s', born' := Apply(s, w), NextBirths(s, born, w);
    assert s'.current == s.current;
    OrderedIsLinked(s, born);
    OrderedIsLinked(s', born');
    forall dep | dep in s.deployments
      ensures dep in s'.deployments && s'.deployments[dep].previous == s.deployments[dep].previous
      ensures born'[dep] == born[dep]
    {
    }
    ChainFrame(s.deployments, born, s'.deployments, born', s.current);
  }

  /** Each write of the pointer is exactly one push of a deployment not on the chain or
      one pop of the top; every other write leaves the chain alone. */
  lemma ChainStep(s: Store, born: Births, w: Write)
    requires IsOrdered(s, born) && IsOrderly(s, w)
    ensures IsOrdered(Apply(s, w), NextBirths(s, born, w))
    ensures CanStep(LiveChain(s, born), Effect(s, w))
    ensures LiveChain(Apply(s, w), NextBirths(s, born, w)) == StackAfter(LiveChain(s, born), Effect(s, w))
  {
    OrderKept(s, born, w);
    if w.PutCurrent? {
      if IsPush(s, w.pointer) {
        PushEffect(s, born, w.pointer);
      } else {
        PopEffect(s, born, w.pointer);
      }
    } else {
      StayEffect(s, born, w);
    }
  }
}
