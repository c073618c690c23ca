/** Model of WarningOverlay: the `isShowing` flag that guards addView / removeView,
    the number of each call issued so far, and the distance last written into the
    warning text. The WindowManager is reduced to the calls it receives; a small
    model of it (Attach) says which call sequences it accepts. */
module Overlay {

  datatype Option<T> = None | Some(value: T)

  /** The abstract state of a warning overlay. `lastDistance` is None while the text
      still holds the layout's initial contents. */
  datatype OverlayState = OverlayState(
    isShowing: bool,
    addCount: nat,
    removeCount: nat,
    lastDistance: Option<real>)

  const Initial: OverlayState := OverlayState(false, 0, 0, None)

  /** Every addView has been matched by a removeView, except one while showing. */
  predicate Balanced(s: OverlayState)
  {
    s.addCount == s.removeCount + (if s.isShowing then 1 else 0)
  }

  /** show(distance): add the view unless it is already showing, then update the text. */
  function ShowStep(s: OverlayState, distance: real): (r: OverlayState)
    ensures r.isShowing && r.lastDistance == Some(distance)
    ensures r.addCount == s.addCount + (if s.isShowing then 0 else 1)
    ensures r.removeCount == s.removeCount
    ensures Balanced(s) ==> Balanced(r)
  {
    if s.isShowing then s.(lastDistance := Some(distance))
    else OverlayState(true, s.addCount + 1, s.removeCount, Some(distance))
  }

  /** hide(): remove the view if it is showing; otherwise do nothing at all. */
  function HideStep(s: OverlayState): (r: OverlayState)
    ensures !r.isShowing && r.lastDistance == s.lastDistance
    ensures r.addCount == s.addCount
    ensures r.removeCount == s.removeCount + (if s.isShowing then 1 else 0)
    ensures !s.isShowing ==> r == s
    ensures Balanced(s) ==> Balanced(r)
  {
    if s.isShowing then s.(isShowing := false, removeCount := s.removeCount + 1)
    else s
  }

  datatype OverlayOp = Show(distance: real) | Hide

  /** A call the overlay makes on the window manager or on its text view. */
  datatype SurfaceCall = AddView | RemoveView | SetText(distance: real)

  function Step(s: OverlayState, op: OverlayOp): OverlayState
  {
    match op
    case Show(d) => ShowStep(s, d)
    case Hide => HideStep(s)
  }

  /** The calls one operation issues, in order. */
  function Issued(s: OverlayState, op: OverlayOp): (calls: seq<SurfaceCall>)
    ensures AddView in calls <==> op.Show? && !s.isShowing
    ensures RemoveView in calls <==> op.Hide? && s.isShowing
    ensures op.Show? ==> |calls| > 0 && calls[|calls| - 1] == SetText(op.distance)
    ensures op.Hide? ==> forall i :: 0 <= i < |calls| ==> !calls[i].SetText?
  {
    match op
    case Show(d) => (if s.isShowing then [] else [AddView]) + [SetText(d)]
    case Hide => if s.isShowing then [RemoveView] else []
  }

  /** The window manager's side: starting with the view attached or not, whether it
      accepts `calls` (None when a view already attached is added again or a view not
      attached is removed) and, if so, whether the view ends attached. */
  function Attach(attached: bool, calls: seq<SurfaceCall>): Option<bool>
    decreases |calls|
  {
    if calls == [] then Some(attached)
    else match calls[0]
      case AddView => if attached then None else Attach(true, calls[1..])
      case RemoveView => if attached then Attach(false, calls[1..]) else None
      case SetText(_) => Attach(attached, calls[1..])
  }

  lemma {:induction false} AttachAppend(attached: bool, xs: seq<SurfaceCall>, ys: seq<SurfaceCall>)
    ensures Attach(attached, xs + ys)
            == match Attach(attached, xs) { case None => None case Some(b) => Attach(b, ys) }
    decreases |xs|
  {
    if xs == [] {
      assert xs + ys == ys;
    } else {
      assert (xs + ys)[0] == xs[0];
      assert (xs + ys)[1..] == xs[1..] + ys;
      match xs[0]
      case AddView => if !attached { AttachAppend(true, xs[1..], ys); }
      case RemoveView => if attached { AttachAppend(false, xs[1..], ys); }
      case SetText(_) => AttachAppend(attached, xs[1..], ys);
    }
  }

  /** A single show or hide never makes the window manager reject a call, and leaves
      the view attached exactly when the flag says it is showing. */
  lemma StepAccepted(s: OverlayState, op: OverlayOp)
    ensures Attach(s.isShowing, Issued(s, op)) == Some(Step(s, op).isShowing)
  {
    match op
    case Show(d) =>
      if s.isShowing {
        assert Issued(s, op) == [SetText(d)];
        assert Issued(s, op)[1..] == [];
      } else {
        assert Issued(s, op) == [AddView, SetText(d)];
        assert Issued(s, op)[1..] == [SetText(d)];
        assert [SetText(d)][1..] == [];
        assert Attach(true, [SetText(d)]) == Attach(true, []);
      }
    case Hide =>
      if s.isShowing {
        assert Issued(s, op)[1..] == [];
      }
  }

  /** The state after the calls in `ops`, in order. */
  function Run(s: OverlayState, ops: seq<OverlayOp>): OverlayState
    decreases |ops|
  {
    if ops == [] then s else Run(Step(s, ops[0]), ops[1..])
  }

  /** All calls issued while the calls in `ops` run, in order. */
  function Log(s: OverlayState, ops: seq<OverlayOp>): seq<SurfaceCall>
    decreases |ops|
  {
    if ops == [] then [] else Issued(s, ops[0]) + Log(Step(s, ops[0]), ops[1..])
  }

  /** The add/remove balance holds after any sequence of shows and hides. */
  lemma {:induction false} RunBalanced(s: OverlayState, ops: seq<OverlayOp>)
    requires Balanced(s)
    ensures Balanced(Run(s, ops))
    decreases |ops|
  {
    if ops != [] {
      RunBalanced(Step(s, ops[0]), ops[1..]);
    }
  }

  /** Over any sequence of shows and hides the window manager never sees a second
      addView of an attached view or a removeView of a detached one, and at the end
      the view is attached exactly when `isShowing` holds. */
  lemma {:induction false} SurfaceNeverMisused(s: OverlayState, ops: seq<OverlayOp>)
    ensures Attach(s.isShowing, Log(s, ops)) == Some(Run(s, ops).isShowing)
    decreases |ops|
  {
    if ops != [] {
      var next := Step(s, ops[0]);
      StepAccepted(s, ops[0]);
      SurfaceNeverMisused(next, ops[1..]);
      AttachAppend(s.isShowing, Issued(s, ops[0]), Log(next, ops[1..]));
    }
  }

  /** The counters advance by exactly the number of addView and removeView calls
      issued while the calls in `ops` run. */
  lemma {:induction false} CountersMatchLog(s: OverlayState, ops: seq<OverlayOp>)
    ensures Run(s, ops).addCount == s.addCount + multiset(Log(s, ops))[AddView]
    ensures Run(s, ops).removeCount == s.removeCount + multiset(Log(s, ops))[RemoveView]
    decreases |ops|
  {
    if ops != [] {
      var next := Step(s, ops[0]);
      CountersMatchLog(next, ops[1..]);
      assert multiset(Log(s, ops)) == multiset(Issued(s, ops[0])) + multiset(Log(next, ops[1..]));
      match ops[0]
      case Show(d) =>
        if s.isShowing {
          assert Issued(s, ops[0]) == [SetText(d)];
        } else {
          assert Issued(s, ops[0]) == [AddView, SetText(d)];
        }
      case Hide =>
    }
  }

  lemma {:induction false} RunSnoc(s: OverlayState, ops: seq<OverlayOp>, op: OverlayOp)
    ensures Run(s, ops + [op]) == Step(Run(s, ops), op)
    decreases |ops|
  {
    if ops == [] {
      assert ops + [op] == [op];
      assert [op][1..] == [];
    } else {
      assert (ops + [op])[0] == ops[0];
      assert (ops + [op])[1..] == ops[1..] + [op];
      RunSnoc(Step(s, ops[0]), ops[1..], op);
    }
  }

  /** The distance of the last show in `ops`, or `initial` if there is none. */
  function LastShown(initial: Option<real>, ops: seq<OverlayOp>): Option<real>
    decreases |ops|
  {
    if ops == [] then initial
    else match ops[|ops| - 1]
      case Show(d) => Some(d)
      case Hide => LastShown(initial, ops[..|ops| - 1])
  }

  /** The displayed distance is always the one given to the latest show: hides never
      touch it. */
  lemma {:induction false} RunLastDistance(s: OverlayState, ops: seq<OverlayOp>)
    ensures Run(s, ops).lastDistance == LastShown(s.lastDistance, ops)
    decreases |ops|
  {
    if ops != [] {
      var init, last := ops[..|ops| - 1], ops[|ops| - 1];
      assert ops == init + [last];
      RunSnoc(s, init, last);
      RunLastDistance(s, init);
    }
  }

  class WarningOverlay {
    var isShowing: bool
    var addCount: nat
    var removeCount: nat
    var lastDistance: Option<real>
    /** Every call issued on the window manager and the text view so far. */
    ghost var surfaceCalls: seq<SurfaceCall>

    function State(): OverlayState
      reads this
    {
      OverlayState(isShowing, addCount, removeCount, lastDistance)
    }

    /** The counters count the addView and removeView calls of the log and balance,
        and the window manager has accepted every call and has the view attached
        exactly while `isShowing` holds. */
    ghost predicate Valid()
      reads this
    {
      && addCount == multiset(surfaceCalls)[AddView]
      && removeCount == multiset(surfaceCalls)[RemoveView]
      && Balanced(State())
      && Attach(false, surfaceCalls) == Some(isShowing)
    }

    constructor ()
      ensures Valid() && State() == Initial && surfaceCalls == []
    {
      isShowing := false;
      addCount, removeCount := 0, 0;
      lastDistance := None;
      surfaceCalls := [];
    }

    method Show(distance: real)
      requires Valid()
      modifies this
      ensures Valid() && State() == ShowStep(old(State()), distance)
      ensures surfaceCalls == old(surfaceCalls) + Issued(old(State()), OverlayOp.Show(distance))
      ensures isShowing && lastDistance == Some(distance)
      ensures addCount == old(addCount) + (if old(isShowing) then 0 else 1)
      ensures removeCount == old(removeCount)
    {
      ghost var before := State();
      if !isShowing {
        isShowing := true;
        addCount := addCount + 1;
        surfaceCalls := surfaceCalls + [AddView];
      }
      lastDistance := Some(distance);
      surfaceCalls := surfaceCalls + [SetText(distance)];
      assert surfaceCalls == old(surfaceCalls) + Issued(before, OverlayOp.Show(distance));
      StepAccepted(before, OverlayOp.Show(distance));
      AttachAppend(false, old(surfaceCalls), Issued(before, OverlayOp.Show(distance)));
    }

    method Hide()
      requires Valid()
      modifies this
      ensures Valid() && State() == HideStep(old(State()))
      ensures surfaceCalls == old(surfaceCalls) + Issued(old(State()), OverlayOp.Hide)
      ensures !isShowing && lastDistance == old(lastDistance)
      ensures removeCount == old(removeCount) + (if old(isShowing) then 1 else 0)
      ensures addCount == old(addCount)
      ensures !old(isShowing) ==> State() == old(State()) && surfaceCalls == old(surfaceCalls)
    {
      ghost var before := State();
      if isShowing {
        isShowing := false;
        removeCount := removeCount + 1;
        surfaceCalls := surfaceCalls + [RemoveView];
      }
      StepAccepted(before, OverlayOp.Hide);
      AttachAppend(false, old(surfaceCalls), Issued(before, OverlayOp.Hide));
    }
  }
}
