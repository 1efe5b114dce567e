/** The quad-tree fork and join of ray gathering: an element gathers, hands what it has down to its
    four children, creates their tasks, and the last child to finish carries on upwards as the
    parent's continuation. A step is one lock region or one task creation, taken anywhere in the
    forest of patch roots, in any order. One colour channel is modelled. */
module ForkJoin {

  datatype Phase =
    | Idle                       // no task yet
    | Pending                    // its task exists
    | Started(created: nat)      // gathered; so many of its children's tasks created
    | Shipping                   // finished, about to join its parent
    | Joined

  /** gather is what gather_rays finds for the element; it is arbitrary. */
  datatype Elem = Elem(gather: real, emittance: real, radIn: real, radSubtree: real, rad: real,
                       joinCounter: int, phase: Phase, kids: seq<Elem>)

  predicate Shape(e: Elem) {
    (|e.kids| == 0 || |e.kids| == 4) && forall k :: k in e.kids ==> Shape(k)
  }

  predicate AllIdle(e: Elem) {
    e.phase == Idle && forall k :: k in e.kids ==> AllIdle(k)
  }

  // ------------------------------------------------------------------------------- the steps

  /** The four children with what their parent passes down to them. */
  function PassDown(kids: seq<Elem>, rad: real): seq<Elem>
    requires |kids| == 4
  {
    [kids[0].(radIn := rad), kids[1].(radIn := rad), kids[2].(radIn := rad), kids[3].(radIn := rad)]
  }

  /** process_rays3: gather, and either finish as a leaf or prepare the children. */
  function Start(e: Elem): Elem
    requires |e.kids| == 0 || |e.kids| == 4
  {
    var g := e.(radSubtree := e.gather);
    if e.kids == [] then
      g.(rad := g.radIn + g.radSubtree + g.emittance, phase := Shipping)
    else
      var push := g.radIn + g.radSubtree;
      g.(kids := PassDown(e.kids, push), joinCounter := 4, phase := Started(0))
  }

  function Create(e: Elem): Elem
    requires e.phase.Started? && e.phase.created < |e.kids|
  {
    var k := e.phase.created;
    e.(phase := Started(k + 1), kids := e.kids[k := e.kids[k].(phase := Pending)])
  }

  /** elem_join_operation at one level: the last child to join finishes its parent. */
  function Join(e: Elem, i: nat): Elem
    requires i < |e.kids|
  {
    var sum := e.(radSubtree := e.radSubtree + e.kids[i].radSubtree * 0.25,
                  joinCounter := e.joinCounter - 1,
                  kids := e.kids[i := e.kids[i].(phase := Joined)]);
    if sum.joinCounter == 0 then sum.(rad := sum.radIn + sum.radSubtree + sum.emittance, phase := Shipping) else sum
  }

  datatype Step = StartHere | CreateHere | JoinHere(kid: nat) | Below(kid: nat, step: Step)

  predicate Enabled(e: Elem, s: Step) {
    match s
    case StartHere => e.phase == Pending
    case CreateHere => e.phase.Started? && e.phase.created < |e.kids|
    case JoinHere(i) => i < |e.kids| && e.kids[i].phase == Shipping
    case Below(i, s') => i < |e.kids| && Enabled(e.kids[i], s')
  }

  function Do(e: Elem, s: Step): Elem
    requires Shape(e) && Enabled(e, s)
  {
    match s
    case StartHere => Start(e)
    case CreateHere => Create(e)
    case JoinHere(i) => Join(e, i)
    case Below(i, s') => e.(kids := e.kids[i := Do(e.kids[i], s')])
  }

  // ---------------------------------------------------------------------- what should come out

  /** Own gather plus a quarter of what each child comes to. */
  function Sub(e: Elem): real {
    if |e.kids| == 4 then
      e.gather + (Sub(e.kids[0]) + Sub(e.kids[1]) + Sub(e.kids[2]) + Sub(e.kids[3])) * 0.25
    else e.gather
  }

  /** Every element of the tree has the radiosity of the recursive definition, where what comes in
      from above is the sum of the ancestors' gathers. */
  predicate Final(e: Elem, radIn: real) {
    && e.radIn == radIn && e.radSubtree == Sub(e) && e.rad == radIn + Sub(e) + e.emittance
    && forall k :: k in e.kids ==> Final(k, radIn + e.gather)
  }

  /** The same tree, whatever has been computed in it so far. */
  predicate SameTree(e: Elem, e': Elem) {
    && e'.gather == e.gather && e'.emittance == e.emittance && |e'.kids| == |e.kids|
    && forall i :: 0 <= i < |e.kids| ==> SameTree(e.kids[i], e'.kids[i])
  }

  /** Every element of e' has the radiosity that the recursive definition gives it on e. */
  predicate Computes(e: Elem, e': Elem, radIn: real) {
    && e'.radIn == radIn && e'.radSubtree == Sub(e) && e'.rad == radIn + Sub(e) + e.emittance
    && |e'.kids| == |e.kids|
    && forall i :: 0 <= i < |e.kids| ==> Computes(e.kids[i], e'.kids[i], radIn + e.gather)
  }

  /** The elements of one patch share its emittance. */
  predicate OnePatch(e: Elem) {
    forall k :: k in e.kids ==> k.emittance == e.emittance && OnePatch(k)
  }

  /** Every parent's radiosity is the mean of its four children's. */
  predicate Averaged(e: Elem) {
    && (|e.kids| == 4 ==> 4.0 * e.rad == e.kids[0].rad + e.kids[1].rad + e.kids[2].rad + e.kids[3].rad)
    && forall k :: k in e.kids ==> Averaged(k)
  }

  /** Pushing down and pulling up agree: what the recursive definition gives is the same radiosity at every
      level of the tree. */
  lemma {:induction false} LevelsAgree(e: Elem, e': Elem, radIn: real)
    requires Shape(e) && OnePatch(e) && Computes(e, e', radIn)
    ensures Averaged(e')
  {
    forall k | k in e'.kids ensures Averaged(k) {
      var i :| 0 <= i < |e'.kids| && e'.kids[i] == k;
      LevelsAgree(e.kids[i], k, radIn + e.gather);
    }
  }

  // ---------------------------------------------------------------------------- the invariant

  function Contribution(e: Elem): real {
    if e.phase == Joined then e.radSubtree else 0.0
  }

  function JoinedKids(kids: seq<Elem>): nat
    requires |kids| == 4
  {
    (if kids[0].phase == Joined then 1 else 0) + (if kids[1].phase == Joined then 1 else 0)
    + (if kids[2].phase == Joined then 1 else 0) + (if kids[3].phase == Joined then 1 else 0)
  }

  function Contributions(kids: seq<Elem>): real
    requires |kids| == 4
  {
    Contribution(kids[0]) + Contribution(kids[1]) + Contribution(kids[2]) + Contribution(kids[3])
  }

  predicate Finished(e: Elem) {
    e.phase == Shipping || e.phase == Joined
  }

  /** What one element knows about itself and its children. */
  predicate Local(e: Elem) {
    match e.phase
    case Idle => forall k :: k in e.kids ==> AllIdle(k)
    case Pending => forall k :: k in e.kids ==> AllIdle(k)
    case Started(c) =>
      && |e.kids| == 4 && c <= 4
      && (forall i :: 0 <= i < 4 ==> e.kids[i].radIn == e.radIn + e.gather)
      && (forall i :: c <= i < 4 ==> AllIdle(e.kids[i]))
      && (forall i :: 0 <= i < c ==> e.kids[i].phase != Idle)
      && e.joinCounter == 4 - JoinedKids(e.kids) && e.joinCounter > 0
      && e.radSubtree == e.gather + Contributions(e.kids) * 0.25
    case _ =>
      && (forall k :: k in e.kids ==> k.phase == Joined && k.radIn == e.radIn + e.gather)
      && e.radSubtree == e.gather + (if |e.kids| == 4 then Contributions(e.kids) * 0.25 else 0.0)
      && e.rad == e.radIn + e.radSubtree + e.emittance
  }

  predicate Inv(e: Elem) {
    Shape(e) && Local(e) && forall k :: k in e.kids ==> Inv(k)
  }

  lemma IdleInv(e: Elem)
    requires Shape(e) && AllIdle(e)
    ensures Inv(e)
  {
    forall k | k in e.kids ensures Inv(k) {
      IdleInv(k);
    }
  }

  lemma RadInInv(e: Elem, rad: real)
    requires Shape(e) && AllIdle(e)
    ensures Inv(e.(radIn := rad)) && AllIdle(e.(radIn := rad))
  {
    IdleInv(e);
  }

  predicate AllFresh(kids: seq<Elem>, rad: real) {
    forall i :: 0 <= i < |kids| ==> AllIdle(kids[i]) && kids[i].radIn == rad
  }

  lemma PassDownInv(kids: seq<Elem>, rad: real)
    requires |kids| == 4 && forall k :: k in kids ==> Shape(k) && AllIdle(k)
    ensures AllFresh(PassDown(kids, rad), rad) && forall i :: 0 <= i < 4 ==> Inv(PassDown(kids, rad)[i])
  {
    var passed := PassDown(kids, rad);
    forall i | 0 <= i < 4 ensures Inv(passed[i]) && AllIdle(passed[i]) && passed[i].radIn == rad {
      assert kids[i] in kids;
      RadInInv(kids[i], rad);
      assert passed[i] == kids[i].(radIn := rad);
    }
  }

  lemma IdleKids(kids: seq<Elem>)
    requires |kids| == 4 && forall i :: 0 <= i < 4 ==> AllIdle(kids[i])
    ensures JoinedKids(kids) == 0 && Contributions(kids) == 0.0
  {
  }

  lemma StartLocal(e: Elem)
    requires |e.kids| == 4
    requires AllFresh(PassDown(e.kids, e.radIn + e.gather), e.radIn + e.gather)
    ensures Local(Start(e))
  {
    var e' := Start(e);
    IdleKids(e'.kids);
    assert e'.phase == Started(0) && e'.radIn == e.radIn && e'.gather == e.gather;
  }

  lemma StartParentInv(e: Elem)
    requires |e.kids| == 4 && forall k :: k in e.kids ==> Shape(k) && AllIdle(k)
    ensures Inv(Start(e))
  {
    var passed := PassDown(e.kids, e.radIn + e.gather);
    PassDownInv(e.kids, e.radIn + e.gather);
    StartLocal(e);
    assert Start(e).kids == passed;
    InvFromKids(Start(e));
  }

  lemma StartLeafInv(e: Elem)
    requires e.kids == []
    ensures Inv(Start(e))
  {
  }

  lemma StartInv(e: Elem)
    requires Shape(e) && Local(e) && e.phase == Pending
    ensures Inv(Start(e))
  {
    if e.kids == [] {
      StartLeafInv(e);
    } else {
      StartParentInv(e);
    }
  }

  /** Inv from its parts, children taken by position. */
  lemma InvFromKids(e: Elem)
    requires |e.kids| == 4 && Local(e) && forall i :: 0 <= i < 4 ==> Inv(e.kids[i])
    ensures Inv(e)
  {
    forall k | k in e.kids ensures Inv(k) && Shape(k) {
      var i :| 0 <= i < 4 && k == e.kids[i];
    }
  }

  lemma PhaseInv(e: Elem, phase: Phase)
    requires Inv(e)
    requires (e.phase == Idle && phase == Pending) || (e.phase == Shipping && phase == Joined)
    ensures Inv(e.(phase := phase))
  {
  }

  lemma ReplaceKid(kids: seq<Elem>, i: nat, kid: Elem)
    requires i < |kids| && (forall k :: k in kids ==> Inv(k)) && Inv(kid)
    ensures forall k :: k in kids[i := kid] ==> Inv(k) && Shape(k)
  {
    var kids' := kids[i := kid];
    forall k | k in kids' ensures Inv(k) && Shape(k) {
      var j :| 0 <= j < |kids'| && kids'[j] == k;
      assert j != i ==> kids[j] in kids;
    }
  }

  lemma CreateInv(e: Elem)
    requires Inv(e) && Enabled(e, CreateHere)
    ensures Inv(Create(e))
  {
    var k := e.phase.created;
    PhaseInv(e.kids[k], Pending);
    ReplaceKid(e.kids, k, e.kids[k].(phase := Pending));
  }

  lemma JoinInv(e: Elem, i: nat)
    requires Inv(e) && Enabled(e, JoinHere(i))
    ensures Inv(Join(e, i))
  {
    assert e.kids[i] in e.kids && e.phase.Started?;
    PhaseInv(e.kids[i], Joined);
    ReplaceKid(e.kids, i, e.kids[i].(phase := Joined));
    var kids' := e.kids[i := e.kids[i].(phase := Joined)];
    assert JoinedKids(kids') == JoinedKids(e.kids) + 1;
    assert Contributions(kids') == Contributions(e.kids) + e.kids[i].radSubtree;
  }

  /** A step inside a child does not show at its parent: the child stays created and unjoined, and its
      radiosity counts only once it has joined. */
  lemma {:induction false} StepKeepsSurface(e: Elem, s: Step)
    requires Inv(e) && Enabled(e, s)
    ensures !Finished(e) && e.phase != Idle
    ensures var e' := Do(e, s); e'.phase != Idle && e'.phase != Joined && e'.radIn == e.radIn && e'.gather == e.gather
    decreases s
  {
    match s
    case StartHere =>
    case CreateHere =>
    case JoinHere(i) =>
      assert e.kids[i] in e.kids;
    case Below(i, s') =>
      assert e.kids[i] in e.kids;
      StepKeepsSurface(e.kids[i], s');
  }

  lemma {:induction false} StepInv(e: Elem, s: Step)
    requires Inv(e) && Enabled(e, s)
    ensures Inv(Do(e, s))
    decreases s
  {
    match s
    case StartHere => StartInv(e);
    case CreateHere => CreateInv(e);
    case JoinHere(i) => JoinInv(e, i);
    case Below(i, s') =>
      StepKeepsSurface(e, s);
      StepInv(e.kids[i], s');
      StepKeepsSurface(e.kids[i], s');
      ReplaceKid(e.kids, i, Do(e.kids[i], s'));
      BelowLocal(e, i, Do(e.kids[i], s'));
  }

  lemma BelowLocal(e: Elem, i: nat, kid: Elem)
    requires Local(e) && i < |e.kids| && e.phase.Started?
    requires e.kids[i].phase != Idle && e.kids[i].phase != Joined
    requires kid.phase != Idle && kid.phase != Joined && kid.radIn == e.kids[i].radIn
    ensures Local(e.(kids := e.kids[i := kid]))
  {
    var kids' := e.kids[i := kid];
    assert i < e.phase.created;
    SameCounts(e.kids, i, kid);
  }

  lemma SameCounts(kids: seq<Elem>, i: nat, kid: Elem)
    requires |kids| == 4 && i < 4 && kids[i].phase != Joined && kid.phase != Joined
    ensures JoinedKids(kids[i := kid]) == JoinedKids(kids)
    ensures Contributions(kids[i := kid]) == Contributions(kids)
  {
  }

  /** A finished element is right, and so is everything below it. */
  lemma {:induction false} FinishedIsFinal(e: Elem)
    requires Inv(e) && Finished(e)
    ensures Final(e, e.radIn)
  {
    forall k | k in e.kids ensures Final(k, e.radIn + e.gather) {
      FinishedIsFinal(k);
    }
    if |e.kids| == 4 {
      assert e.kids[0] in e.kids && e.kids[1] in e.kids && e.kids[2] in e.kids && e.kids[3] in e.kids;
    }
  }

  // --------------------------------------------------------------- progress and exactly once

  /** Steps still to come at the element itself: its start, its children's creations, its own join. */
  function OwnSteps(e: Elem): nat {
    match e.phase
    case Started(c) => if c <= 4 then 5 - c else 1
    case Shipping => 1
    case Joined => 0
    case _ => if e.kids == [] then 2 else 6
  }

  /** How many steps are left in the tree. */
  function Remaining(e: Elem): nat {
    OwnSteps(e) + RemainingKids(e.kids)
  }

  function RemainingKids(kids: seq<Elem>): nat {
    if kids == [] then 0 else Remaining(kids[0]) + RemainingKids(kids[1..])
  }

  lemma {:induction false} RemainingUpdate(kids: seq<Elem>, i: nat, kid: Elem)
    requires i < |kids|
    ensures RemainingKids(kids[i := kid]) + Remaining(kids[i]) == RemainingKids(kids) + Remaining(kid)
  {
    if i == 0 {
      assert kids[0 := kid][1..] == kids[1..];
    } else {
      assert kids[i := kid][1..] == kids[1..][i - 1 := kid];
      RemainingUpdate(kids[1..], i - 1, kid);
    }
  }

  /** Every step is one of those left, so no element starts, creates a child or joins twice. */
  lemma {:induction false} StepDecreases(e: Elem, s: Step)
    requires Inv(e) && Enabled(e, s)
    ensures Remaining(Do(e, s)) + 1 == Remaining(e)
    decreases s
  {
    match s
    case StartHere => StartDecreases(e);
    case CreateHere => CreateDecreases(e);
    case JoinHere(i) =>
      assert e.kids[i] in e.kids;
      JoinDecreases(e, i);
    case Below(i, s') =>
      assert e.kids[i] in e.kids;
      StepDecreases(e.kids[i], s');
      RemainingUpdate(e.kids, i, Do(e.kids[i], s'));
  }

  lemma RemainingPassDown(kids: seq<Elem>, rad: real)
    requires |kids| == 4
    ensures RemainingKids(PassDown(kids, rad)) == RemainingKids(kids)
  {
    RemainingFour(kids);
    RemainingFour(PassDown(kids, rad));
    forall i | 0 <= i < 4 ensures Remaining(PassDown(kids, rad)[i]) == Remaining(kids[i]) {
      assert PassDown(kids, rad)[i] == kids[i].(radIn := rad);
    }
  }

  lemma StartDecreases(e: Elem)
    requires |e.kids| == 0 || |e.kids| == 4
    requires e.phase == Pending
    ensures Remaining(Start(e)) + 1 == Remaining(e)
  {
    var e' := Start(e);
    if e.kids != [] {
      RemainingPassDown(e.kids, e.radIn + e.gather);
      assert e'.kids == PassDown(e.kids, e.radIn + e.gather) && e'.phase == Started(0);
    }
    assert OwnSteps(e') + 1 == OwnSteps(e);
  }

  lemma CreateDecreases(e: Elem)
    requires Local(e) && Enabled(e, CreateHere)
    ensures Remaining(Create(e)) + 1 == Remaining(e)
  {
    var k := e.phase.created;
    RemainingUpdate(e.kids, k, e.kids[k].(phase := Pending));
  }

  lemma JoinDecreases(e: Elem, i: nat)
    requires Local(e) && Enabled(e, JoinHere(i)) && e.phase.Started?
    ensures Remaining(Join(e, i)) + 1 == Remaining(e)
  {
    RemainingUpdate(e.kids, i, e.kids[i].(phase := Joined));
  }

  lemma RemainingFour(kids: seq<Elem>)
    requires |kids| == 4
    ensures RemainingKids(kids) == Remaining(kids[0]) + Remaining(kids[1]) + Remaining(kids[2]) + Remaining(kids[3])
  {
    assert kids[1..][1..] == kids[2..] && kids[2..][1..] == kids[3..] && kids[3..][1..] == [];
    assert RemainingKids(kids[1..]) == Remaining(kids[1]) + RemainingKids(kids[2..]);
    assert RemainingKids(kids[2..]) == Remaining(kids[2]) + RemainingKids(kids[3..]);
    assert RemainingKids(kids[3..]) == Remaining(kids[3]) + RemainingKids([]);
  }

  /** Nothing gets stuck: an element whose task exists is finished or can take a step. */
  lemma {:induction false} CanStep(e: Elem) returns (s: Step)
    requires Inv(e) && e.phase != Idle && !Finished(e)
    ensures Enabled(e, s)
  {
    match e.phase
    case Pending => s := StartHere;
    case Started(c) =>
      if c < 4 {
        s := CreateHere;
      } else {
        assert JoinedKids(e.kids) < 4;
        var i :| 0 <= i < 4 && e.kids[i].phase != Joined;
        if e.kids[i].phase == Shipping {
          s := JoinHere(i);
        } else {
          var s' := CanStep(e.kids[i]);
          s := Below(i, s');
        }
      }
  }

  // ------------------------------------------------------------------- the forest of patches

  datatype Forest = Forest(roots: seq<Elem>, areas: seq<real>, energy: real, patchArea: real)

  /** A step in one tree, or a finished root adding to the total energy. */
  datatype Act = In(root: nat, step: Step) | Deposit(root: nat)

  predicate Init(f: Forest) {
    && |f.areas| == |f.roots| && f.energy == 0.0 && f.patchArea == 0.0
    && forall i :: 0 <= i < |f.roots| ==>
         f.roots[i].phase == Pending && f.roots[i].radIn == 0.0 && Shape(f.roots[i])
         && forall k :: k in f.roots[i].kids ==> AllIdle(k)
  }

  predicate EnabledAct(f: Forest, a: Act) {
    && a.root < |f.roots|
    && match a
       case In(i, s) => Enabled(f.roots[i], s)
       case Deposit(i) => f.roots[i].phase == Shipping
  }

  predicate ForestShape(f: Forest) {
    |f.areas| == |f.roots| && forall i :: 0 <= i < |f.roots| ==> Shape(f.roots[i])
  }

  function DoAct(f: Forest, a: Act): Forest
    requires ForestShape(f) && EnabledAct(f, a)
  {
    match a
    case In(i, s) => f.(roots := f.roots[i := Do(f.roots[i], s)])
    case Deposit(i) => f.(roots := f.roots[i := f.roots[i].(phase := Joined)],
                           energy := f.energy + Energy(f.roots[i], f.areas[i]), patchArea := f.patchArea + f.areas[i])
  }

  function Sum(amounts: seq<real>): real {
    if amounts == [] then 0.0 else amounts[0] + Sum(amounts[1..])
  }

  function Energy(r: Elem, area: real): real {
    r.rad * area
  }

  /** What each root has added to the total energy, and to the total area, so far. */
  function Energies(roots: seq<Elem>, areas: seq<real>): (r: seq<real>)
    requires |roots| == |areas|
    ensures |r| == |roots|
  {
    seq(|roots|, i requires 0 <= i < |roots| => if roots[i].phase == Joined then Energy(roots[i], areas[i]) else 0.0)
  }

  function Areas(roots: seq<Elem>, areas: seq<real>): (r: seq<real>)
    requires |roots| == |areas|
    ensures |r| == |roots|
  {
    seq(|roots|, i requires 0 <= i < |roots| => if roots[i].phase == Joined then areas[i] else 0.0)
  }

  /** What each root should add. */
  function Expected(roots: seq<Elem>, areas: seq<real>): seq<real>
    requires |roots| == |areas|
  {
    seq(|roots|, i requires 0 <= i < |roots| => (Sub(roots[i]) + roots[i].emittance) * areas[i])
  }

  predicate RootsInv(roots: seq<Elem>) {
    forall i :: 0 <= i < |roots| ==> Inv(roots[i]) && roots[i].phase != Idle && roots[i].radIn == 0.0
  }

  predicate ForestInv(f: Forest) {
    && |f.areas| == |f.roots|
    && RootsInv(f.roots)
    && f.energy == Sum(Energies(f.roots, f.areas)) && f.patchArea == Sum(Areas(f.roots, f.areas))
  }

  lemma {:induction false} SumUpdate(amounts: seq<real>, i: nat, x: real)
    requires i < |amounts|
    ensures Sum(amounts[i := x]) == Sum(amounts) - amounts[i] + x
  {
    if i == 0 {
      assert amounts[0 := x][1..] == amounts[1..];
    } else {
      assert amounts[i := x][1..] == amounts[1..][i - 1 := x];
      SumUpdate(amounts[1..], i - 1, x);
    }
  }

  lemma RootUpdate(roots: seq<Elem>, areas: seq<real>, i: nat, r: Elem)
    requires |roots| == |areas| && i < |roots| && roots[i].phase != Joined
    ensures Sum(Energies(roots[i := r], areas))
            == Sum(Energies(roots, areas)) + (if r.phase == Joined then Energy(r, areas[i]) else 0.0)
    ensures Sum(Areas(roots[i := r], areas)) == Sum(Areas(roots, areas)) + (if r.phase == Joined then areas[i] else 0.0)
  {
    var x := if r.phase == Joined then Energy(r, areas[i]) else 0.0;
    var y := if r.phase == Joined then areas[i] else 0.0;
    assert Energies(roots[i := r], areas) == Energies(roots, areas)[i := x];
    assert Areas(roots[i := r], areas) == Areas(roots, areas)[i := y];
    SumUpdate(Energies(roots, areas), i, x);
    SumUpdate(Areas(roots, areas), i, y);
  }

  lemma StepActInv(f: Forest, i: nat, s: Step)
    requires ForestInv(f) && ForestShape(f) && EnabledAct(f, In(i, s))
    ensures ForestInv(DoAct(f, In(i, s))) && ForestShape(DoAct(f, In(i, s))) && SameTrees(f, DoAct(f, In(i, s)))
    ensures RemainingKids(DoAct(f, In(i, s)).roots) + 1 == RemainingKids(f.roots)
  {
    var r := f.roots[i];
    StepInv(r, s);
    StepKeepsSurface(r, s);
    StepDecreases(r, s);
    StepKeepsTree(r, s);
    RootUpdate(f.roots, f.areas, i, Do(r, s));
    RemainingUpdate(f.roots, i, Do(r, s));
    RootsKeepInv(f.roots, i, Do(r, s));
    RootsKeepTree(f.roots, i, Do(r, s));
  }

  lemma JoinedCounts(e: Elem)
    requires e.phase == Shipping
    ensures SameTree(e, e.(phase := Joined)) && Remaining(e.(phase := Joined)) + 1 == Remaining(e)
    ensures forall area :: Energy(e.(phase := Joined), area) == Energy(e, area)
  {
    SameAsItself(e);
  }

  lemma DepositInv(f: Forest, i: nat)
    requires ForestInv(f) && ForestShape(f) && EnabledAct(f, Deposit(i))
    ensures ForestInv(DoAct(f, Deposit(i))) && ForestShape(DoAct(f, Deposit(i))) && SameTrees(f, DoAct(f, Deposit(i)))
    ensures RemainingKids(DoAct(f, Deposit(i)).roots) + 1 == RemainingKids(f.roots)
  {
    var r := f.roots[i].(phase := Joined);
    PhaseInv(f.roots[i], Joined);
    JoinedCounts(f.roots[i]);
    RootUpdate(f.roots, f.areas, i, r);
    RemainingUpdate(f.roots, i, r);
    RootsKeepInv(f.roots, i, r);
    RootsKeepTree(f.roots, i, r);
  }

  lemma RootsKeepInv(roots: seq<Elem>, i: nat, r: Elem)
    requires i < |roots| && RootsInv(roots) && Inv(r) && r.phase != Idle && r.radIn == 0.0
    ensures RootsInv(roots[i := r])
  {
  }

  lemma RootsKeepTree(roots: seq<Elem>, i: nat, r: Elem)
    requires i < |roots| && SameTree(roots[i], r)
    ensures forall j :: 0 <= j < |roots| ==> SameTree(roots[j], roots[i := r][j])
  {
    forall j | 0 <= j < |roots| ensures SameTree(roots[j], roots[i := r][j]) {
      SameAsItself(roots[j]);
    }
  }

  lemma {:induction false} SameAsItself(e: Elem)
    ensures SameTree(e, e)
  {
    forall i | 0 <= i < |e.kids| ensures SameTree(e.kids[i], e.kids[i]) {
      SameAsItself(e.kids[i]);
    }
  }

  lemma {:induction false} SameThroughout(a: Elem, b: Elem, c: Elem)
    requires SameTree(a, b) && SameTree(b, c)
    ensures SameTree(a, c)
  {
    forall i | 0 <= i < |a.kids| ensures SameTree(a.kids[i], c.kids[i]) {
      SameThroughout(a.kids[i], b.kids[i], c.kids[i]);
    }
  }

  lemma {:induction false} SameComesTo(e: Elem, e': Elem)
    requires SameTree(e, e')
    ensures Sub(e') == Sub(e)
  {
    if |e.kids| == 4 {
      SameComesTo(e.kids[0], e'.kids[0]);
      SameComesTo(e.kids[1], e'.kids[1]);
      SameComesTo(e.kids[2], e'.kids[2]);
      SameComesTo(e.kids[3], e'.kids[3]);
    }
  }

  /** No step changes the shape of a tree, its gathers or its emittances. */
  lemma {:induction false} StepKeepsTree(e: Elem, s: Step)
    requires Shape(e) && Enabled(e, s)
    ensures SameTree(e, Do(e, s))
    decreases s
  {
    var e' := Do(e, s);
    forall i | 0 <= i < |e.kids| ensures SameTree(e.kids[i], e'.kids[i]) {
      SameAsItself(e.kids[i]);
      if s.Below? && i == s.kid {
        assert e.kids[i] in e.kids;
        StepKeepsTree(e.kids[i], s.step);
      }
    }
  }

  predicate SameTrees(f: Forest, f': Forest) {
    && f'.areas == f.areas && |f'.roots| == |f.roots|
    && forall i :: 0 <= i < |f.roots| ==>
         SameTree(f.roots[i], f'.roots[i])
  }

  /** f' follows from f by the schedule `acts`. */
  predicate Reaches(f: Forest, acts: seq<Act>, f': Forest)
    decreases acts
  {
    if acts == [] then f' == f
    else ForestShape(f) && EnabledAct(f, acts[0]) && Reaches(DoAct(f, acts[0]), acts[1..], f')
  }

  lemma InitInv(f: Forest)
    requires Init(f)
    ensures ForestInv(f) && ForestShape(f)
  {
    forall i | 0 <= i < |f.roots| ensures Inv(f.roots[i]) {
      forall k | k in f.roots[i].kids ensures Inv(k) {
        IdleInv(k);
      }
    }
    SumOfZeros(Energies(f.roots, f.areas));
    SumOfZeros(Areas(f.roots, f.areas));
  }

  lemma {:induction false} SumOfZeros(amounts: seq<real>)
    requires forall i :: 0 <= i < |amounts| ==> amounts[i] == 0.0
    ensures Sum(amounts) == 0.0
  {
    if amounts != [] {
      SumOfZeros(amounts[1..]);
    }
  }

  lemma SameTreesThroughout(f: Forest, g: Forest, h: Forest)
    requires SameTrees(f, g) && SameTrees(g, h)
    ensures SameTrees(f, h)
  {
    forall i | 0 <= i < |f.roots| ensures SameTree(f.roots[i], h.roots[i]) {
      SameThroughout(f.roots[i], g.roots[i], h.roots[i]);
    }
  }

  lemma {:induction false} RunInv(f: Forest, acts: seq<Act>, f': Forest)
    requires ForestInv(f) && ForestShape(f) && Reaches(f, acts, f')
    ensures ForestInv(f') && ForestShape(f') && SameTrees(f, f')
    ensures |acts| + RemainingKids(f'.roots) == RemainingKids(f.roots)
    decreases acts
  {
    if acts != [] {
      match acts[0] {
        case In(i, s) => StepActInv(f, i, s);
        case Deposit(i) => DepositInv(f, i);
      }
      RunInv(DoAct(f, acts[0]), acts[1..], f');
      SameTreesThroughout(f, DoAct(f, acts[0]), f');
    } else {
      forall i | 0 <= i < |f.roots| ensures SameTree(f.roots[i], f.roots[i]) {
        SameAsItself(f.roots[i]);
      }
    }
  }

  lemma {:induction false} FinalComputes(e: Elem, e': Elem, radIn: real)
    requires SameTree(e, e') && Final(e', radIn)
    ensures Computes(e, e', radIn)
  {
    SameComesTo(e, e');
    forall i | 0 <= i < |e.kids| ensures Computes(e.kids[i], e'.kids[i], radIn + e.gather) {
      assert e'.kids[i] in e'.kids;
      FinalComputes(e.kids[i], e'.kids[i], radIn + e.gather);
    }
  }

  predicate Stopped(f: Forest) {
    forall i :: 0 <= i < |f.roots| ==> f.roots[i].phase == Joined
  }

  /** Whatever the schedule: it can always go on until every patch root has deposited; it has then taken
      exactly one start and one join per element and one creation per child; every element has the
      radiosity of the recursive definition, and the totals are the sums over the roots. Nothing depends
      on the order of finishing. */
  lemma EveryScheduleIsRight(f: Forest, acts: seq<Act>, f': Forest)
    requires Init(f) && Reaches(f, acts, f')
    ensures |acts| <= RemainingKids(f.roots) && (Stopped(f') <==> |acts| == RemainingKids(f.roots))
    ensures |f'.roots| == |f.roots| && (!Stopped(f') ==> exists a :: EnabledAct(f', a))
    ensures Stopped(f') ==>
              forall i :: 0 <= i < |f'.roots| ==> Final(f'.roots[i], 0.0) && Computes(f.roots[i], f'.roots[i], 0.0)
    ensures forall i :: 0 <= i < |f'.roots| ==> SameTree(f.roots[i], f'.roots[i])
    ensures Stopped(f') ==> f'.energy == Sum(Expected(f.roots, f.areas)) && f'.patchArea == Sum(f.areas)
  {
    InitInv(f);
    RunInv(f, acts, f');
    if !Stopped(f') {
      var i :| 0 <= i < |f'.roots| && f'.roots[i].phase != Joined;
      UnjoinedHasSomeLeft(f'.roots, i);
      if f'.roots[i].phase == Shipping {
        assert EnabledAct(f', Deposit(i));
      } else {
        var s := CanStep(f'.roots[i]);
        assert EnabledAct(f', In(i, s));
      }
    } else {
      forall i | 0 <= i < |f'.roots|
        ensures Final(f'.roots[i], 0.0) && Computes(f.roots[i], f'.roots[i], 0.0) && Sub(f'.roots[i]) == Sub(f.roots[i])
      {
        FinishedIsFinal(f'.roots[i]);
        FinalComputes(f.roots[i], f'.roots[i], 0.0);
        SameComesTo(f.roots[i], f'.roots[i]);
      }
      EnergyAddsUp(f.roots, f'.roots, f.areas);
      AllJoinedNoneLeft(f'.roots);
    }
  }

  /** So at the end of every schedule the levels of a patch's tree agree about its radiosity. */
  lemma EveryScheduleAverages(f: Forest, acts: seq<Act>, f': Forest, i: nat)
    requires Init(f) && Reaches(f, acts, f') && Stopped(f') && i < |f.roots| && OnePatch(f.roots[i])
    ensures |f'.roots| == |f.roots| && Averaged(f'.roots[i])
  {
    EveryScheduleIsRight(f, acts, f');
    assert Computes(f.roots[i], f'.roots[i], 0.0);
    LevelsAgree(f.roots[i], f'.roots[i], 0.0);
  }

  lemma {:induction false} JoinedHasNoneLeft(e: Elem)
    requires Inv(e) && e.phase == Joined
    ensures Remaining(e) == 0
  {
    AllJoinedNoneLeft(e.kids);
  }

  lemma {:induction false} AllJoinedNoneLeft(kids: seq<Elem>)
    requires forall k :: k in kids ==> Inv(k) && k.phase == Joined
    ensures RemainingKids(kids) == 0
  {
    if kids != [] {
      JoinedHasNoneLeft(kids[0]);
      AllJoinedNoneLeft(kids[1..]);
    }
  }

  lemma {:induction false} UnjoinedHasSomeLeft(kids: seq<Elem>, i: nat)
    requires i < |kids| && kids[i].phase != Joined
    ensures RemainingKids(kids) > 0
  {
    if i > 0 {
      UnjoinedHasSomeLeft(kids[1..], i - 1);
    }
  }

  lemma EnergyAddsUp(before: seq<Elem>, after: seq<Elem>, areas: seq<real>)
    requires |before| == |areas| && |after| == |areas|
    requires forall i :: 0 <= i < |after| ==> after[i].phase == Joined && Final(after[i], 0.0)
    requires forall i :: 0 <= i < |after| ==>
               Sub(after[i]) == Sub(before[i]) && after[i].emittance == before[i].emittance
    ensures Energies(after, areas) == Expected(before, areas) && Areas(after, areas) == areas
  {
    forall i | 0 <= i < |after| ensures Energies(after, areas)[i] == Expected(before, areas)[i] {
      assert Final(after[i], 0.0);
      assert after[i].rad == Sub(before[i]) + before[i].emittance;
    }
  }
}
