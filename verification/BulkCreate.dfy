/** Bulk creation (internal/ent/cartitem_create.go, cart_create.go): the chain of closures in
    which each builder's mutator, wrapped in its hooks, checks the builder, fills its slots and
    calls the next builder's mutator, and the last one runs the single batch insert. */
module BulkCreate {
  import opened Base

  datatype Outcome = Done | Failed(error: string)

  /** A builder's mutation: the fields set so far (id included) and the mark left by a successful save. */
  datatype Mutation<+F> = Mutation(fields: F, done: bool)

  /** What a hook does before calling the next mutator: edit the mutation in place and go on, or
      return without calling it. */
  datatype Before<+F> = Proceed(fields: F) | Stop(o: Outcome)

  /** A hook with the code around its call to the next mutator: after the call it may edit the
      mutation again and replace the outcome. */
  datatype Hook<!F> = Hook(before: F -> Before<F>, after: (F, Outcome) -> (F, Outcome))

  /** The generated code of one entity and the database behind it: field defaults for the k-th
      builder, validation, node and insert row of createSpec, the id written back, BatchCreate. */
  datatype Kit<!F, !N, !S, !T> = Kit(
    defaults: (F, nat) -> F,
    check: F -> Option<string>,
    node: F -> N,
    spec: F -> S,
    withId: (F, N) -> F,
    batch: (T, seq<S>) -> Result<T, string>)

  class Builder<F> {
    var mutation: Mutation<F>
    const hooks: seq<Hook<F>>

    constructor (fields: F, hooks: seq<Hook<F>>)
      ensures mutation == Mutation(fields, false) && this.hooks == hooks
    {
      this.mutation := Mutation(fields, false);
      this.hooks := hooks;
    }
  }

  /** One activation record of the chain: hook h of builder i, or builder i's own mutator. */
  datatype Frame = HookFrame(i: nat, h: nat) | CoreFrame(i: nat)

  datatype Event = Enter(f: Frame) | Leave(f: Frame) | Batch

  datatype State<!F, !N, !S, !T> = State(
    muts: map<Builder<F>, Mutation<F>>,
    nodes: seq<Option<N>>,
    specs: seq<Option<S>>,
    table: T,
    trace: seq<Event>)

  // ---------------------------------------------------------------------------------------
  // The plain loop: all frames in order on the way down, one batch insert, all frames reached
  // in reverse on the way up

  predicate FrameOk<F>(bs: seq<Builder<F>>, f: Frame) {
    f.i < |bs| && (f.HookFrame? ==> f.h < |bs[f.i].hooks|)
  }

  predicate FramesOk<F>(bs: seq<Builder<F>>, fs: seq<Frame>) {
    forall k :: 0 <= k < |fs| ==> FrameOk(bs, fs[k])
  }

  ghost predicate Fits<F, N, S, T>(bs: seq<Builder<F>>, st: State<F, N, S, T>) {
    (forall k :: 0 <= k < |bs| ==> bs[k] in st.muts) && |st.nodes| == |bs| && |st.specs| == |bs|
  }

  ghost function SetFields<F, N, S, T>(st: State<F, N, S, T>, b: Builder<F>, fields: F): State<F, N, S, T>
    requires b in st.muts
  {
    st.(muts := st.muts[b := st.muts[b].(fields := fields)])
  }

  ghost function Log<F, N, S, T>(st: State<F, N, S, T>, e: Event): State<F, N, S, T> {
    st.(trace := st.trace + [e])
  }

  /** Entering a frame: None when the chain goes on, otherwise the outcome it stops with. */
  ghost function StepDown<F, N, S, T>(kit: Kit<F, N, S, T>, bs: seq<Builder<F>>, f: Frame, st: State<F, N, S, T>)
    : (r: (Option<Outcome>, State<F, N, S, T>))
    requires FrameOk(bs, f) && Fits(bs, st)
    ensures Fits(bs, r.1) && r.1.muts.Keys == st.muts.Keys
    ensures r.1.trace == st.trace + [Enter(f)]
  {
    var b := bs[f.i];
    var fields := st.muts[b].fields;
    var st := Log(st, Enter(f));
    match f
    case HookFrame(_, h) =>
      (match b.hooks[h].before(fields)
       case Proceed(fields) => (None, SetFields(st, b, fields))
       case Stop(o) => (Some(o), st))
    case CoreFrame(i) =>
      (match kit.check(fields)
       case Some(e) => (Some(Failed(e)), st)
       case None => (None, st.(nodes := st.nodes[i := Some(kit.node(fields))],
                               specs := st.specs[i := Some(kit.spec(fields))])))
  }

  /** Returning through a frame with the outcome of what it called. */
  ghost function StepUp<F, N, S, T>(kit: Kit<F, N, S, T>, bs: seq<Builder<F>>, f: Frame, o: Outcome, st: State<F, N,
        S, T>)
    : (r: (Outcome, State<F, N, S, T>))
    requires FrameOk(bs, f) && Fits(bs, st)
    ensures Fits(bs, r.1) && r.1.muts.Keys == st.muts.Keys
    ensures r.1.trace == st.trace + [Leave(f)]
  {
    var b := bs[f.i];
    var st := Log(st, Leave(f));
    match f
    case HookFrame(_, h) =>
      var (fields, o') := b.hooks[h].after(st.muts[b].fields, o);
      (o', SetFields(st, b, fields))
    case CoreFrame(i) =>
      if o.Done? && st.nodes[i].Some? then
        (o, st.(muts := st.muts[b := Mutation(kit.withId(st.muts[b].fields, st.nodes[i].value), true)]))
      else (o, st)
  }

  predicate AllFilled<S>(specs: seq<Option<S>>) {
    forall k :: 0 <= k < |specs| ==> specs[k].Some?
  }

  function Values<S>(specs: seq<Option<S>>): (vs: seq<S>)
    requires AllFilled(specs)
    ensures |vs| == |specs|
    ensures forall k :: 0 <= k < |vs| ==> specs[k] == Some(vs[k])
  {
    seq(|specs|, k requires 0 <= k < |specs| => specs[k].value)
  }

  /** The batch insert of all rows; a row never built would be a nil dereference. */
  ghost function Insert<F, N, S, T>(kit: Kit<F, N, S, T>, st: State<F, N, S, T>): (r: (Outcome, State<F, N, S, T>)) {
    if !AllFilled(st.specs) then (Failed("nil row"), st)
    else
      match kit.batch(st.table, Values(st.specs))
      case Ok(t) => (Done, Log(st, Batch).(table := t))
      case Err(e) => (Failed(e), Log(st, Batch))
  }

  /** How far a descent came: frames passed, the outcome that stopped it, the state. */
  datatype Descent<!F, !N, !S, !T> = Descent(passed: nat, halt: Option<Outcome>, st: State<F, N, S, T>)

  ghost function Descend<F, N, S, T>(kit: Kit<F, N, S, T>, bs: seq<Builder<F>>, fs: seq<Frame>, st: State<F, N, S, T>)
    : (d: Descent<F, N, S, T>)
    requires FramesOk(bs, fs) && Fits(bs, st)
    ensures Fits(bs, d.st) && d.st.muts.Keys == st.muts.Keys && d.passed <= |fs|
    ensures d.halt.None? <==> d.passed == |fs|
  {
    if fs == [] then Descent(0, None, st)
    else
      var (halt, st1) := StepDown(kit, bs, fs[0], st);
      if halt.Some? then Descent(0, halt, Log(st1, Leave(fs[0])))
      else
        var d := Descend(kit, bs, fs[1..], st1);
        d.(passed := d.passed + 1)
  }

  ghost function Ascend<F, N, S, T>(kit: Kit<F, N, S, T>, bs: seq<Builder<F>>, fs: seq<Frame>, o: Outcome,
        st: State<F, N, S, T>)
    : (r: (Outcome, State<F, N, S, T>))
    requires FramesOk(bs, fs) && Fits(bs, st)
    ensures Fits(bs, r.1) && r.1.muts.Keys == st.muts.Keys
  {
    if fs == [] then (o, st)
    else
      var (o1, st1) := StepUp(kit, bs, fs[|fs| - 1], o, st);
      Ascend(kit, bs, fs[..|fs| - 1], o1, st1)
  }

  ghost function PlainLoop<F, N, S, T>(kit: Kit<F, N, S, T>, bs: seq<Builder<F>>, fs: seq<Frame>, st: State<F, N, S, T>)
    : (r: (Outcome, State<F, N, S, T>))
    requires FramesOk(bs, fs) && Fits(bs, st)
    ensures Fits(bs, r.1) && r.1.muts.Keys == st.muts.Keys
  {
    var d := Descend(kit, bs, fs, st);
    var (o, st1) := if d.halt.Some? then (d.halt.value, d.st) else Insert(kit, d.st);
    Ascend(kit, bs, fs[..d.passed], o, st1)
  }

  /** The frames from hook h of builder i on: each builder's hooks, outermost first, then its mutator. */
  function Rest<F>(bs: seq<Builder<F>>, i: nat, h: nat): (fs: seq<Frame>)
    requires i < |bs| ==> h <= |bs[i].hooks|
    ensures FramesOk(bs, fs)
    decreases |bs| - i, if i < |bs| then |bs[i].hooks| - h else 0
  {
    if i >= |bs| then []
    else if h < |bs[i].hooks| then [HookFrame(i, h)] + Rest(bs, i, h + 1)
    else [CoreFrame(i)] + Rest(bs, i + 1, 0)
  }

  /** The recursion's shape: a frame runs around everything after it. */
  lemma LoopAround<F, N, S, T>(kit: Kit<F, N, S, T>, bs: seq<Builder<F>>, f: Frame, rest: seq<Frame>, st: State<F, N,
        S, T>)
    requires FrameOk(bs, f) && FramesOk(bs, rest) && Fits(bs, st)
    ensures FramesOk(bs, [f] + rest)
    ensures var (halt, st1) := StepDown(kit, bs, f, st);
            PlainLoop(kit, bs, [f] + rest, st) ==
            if halt.Some? then (halt.value, Log(st1, Leave(f)))
            else
              var (o, st2) := PlainLoop(kit, bs, rest, st1);
              StepUp(kit, bs, f, o, st2)
  {
    var fs := [f] + rest;
    assert fs[1..] == rest;
    var (halt, st1) := StepDown(kit, bs, f, st);
    if halt.None? {
      var d := Descend(kit, bs, rest, st1);
      assert fs[..d.passed + 1] == [f] + rest[..d.passed];
      var (o, st2) := if d.halt.Some? then (d.halt.value, d.st) else Insert(kit, d.st);
      AscendAround(kit, bs, f, rest[..d.passed], o, st2);
    } else {
      assert fs[..0] == [];
    }
  }

  lemma {:induction false} AscendAround<F, N, S, T>(kit: Kit<F, N, S, T>, bs: seq<Builder<F>>, f: Frame,
        gs: seq<Frame>, o: Outcome, st: State<F, N, S, T>)
    requires FrameOk(bs, f) && FramesOk(bs, gs) && Fits(bs, st)
    ensures FramesOk(bs, [f] + gs)
    ensures Ascend(kit, bs, [f] + gs, o, st) ==
            var (o1, st1) := Ascend(kit, bs, gs, o, st); StepUp(kit, bs, f, o1, st1)
    decreases |gs|
  {
    var fs := [f] + gs;
    if gs == [] {
      assert fs[..|fs| - 1] == [];
    } else {
      var last := gs[|gs| - 1];
      var (o1, st1) := StepUp(kit, bs, last, o, st);
      assert fs[..|fs| - 1] == [f] + gs[..|gs| - 1];
      AscendAround(kit, bs, f, gs[..|gs| - 1], o1, st1);
    }
  }

  /** The frame at hook h of builder i, or its mutator once the hooks are passed. */
  function FrameFrom<F>(bs: seq<Builder<F>>, i: nat, h: nat): Frame
    requires i < |bs|
  {
    if h < |bs[i].hooks| then HookFrame(i, h) else CoreFrame(i)
  }

  predicate At<F>(bs: seq<Builder<F>>, i: nat, h: nat) { i <= |bs| && (i < |bs| ==> h <= |bs[i].hooks|) }

  /** Descending from a frame, one builder after the other. */
  ghost function DownFrom<F, N, S, T>(kit: Kit<F, N, S, T>, bs: seq<Builder<F>>, i: nat, h: nat, st: State<F, N, S, T>)
    : (r: (Option<Outcome>, State<F, N, S, T>))
    requires Fits(bs, st) && At(bs, i, h)
    ensures Fits(bs, r.1)
    decreases |bs| - i, if i < |bs| then |bs[i].hooks| - h else 0
  {
    if i == |bs| then (None, st)
    else
      var (halt, st1) := StepDown(kit, bs, FrameFrom(bs, i, h), st);
      if halt.Some? then (halt, Log(st1, Leave(FrameFrom(bs, i, h))))
      else if h < |bs[i].hooks| then DownFrom(kit, bs, i, h + 1, st1)
      else DownFrom(kit, bs, i + 1, 0, st1)
  }

  /** Returning to a frame from the insert, the same way back. */
  ghost function UpFrom<F, N, S, T>(kit: Kit<F, N, S, T>, bs: seq<Builder<F>>, i: nat, h: nat, o: Outcome,
        st: State<F, N, S, T>)
    : (r: (Outcome, State<F, N, S, T>))
    requires Fits(bs, st) && At(bs, i, h)
    ensures Fits(bs, r.1)
    decreases |bs| - i, if i < |bs| then |bs[i].hooks| - h else 0
  {
    if i == |bs| then (o, st)
    else
      var (o1, st1) := if h < |bs[i].hooks| then UpFrom(kit, bs, i, h + 1, o, st) else UpFrom(kit, bs, i + 1, 0, o, st);
      StepUp(kit, bs, FrameFrom(bs, i, h), o1, st1)
  }

  lemma {:induction false} DescendIs<F, N, S, T>(kit: Kit<F, N, S, T>, bs: seq<Builder<F>>, i: nat, h: nat,
        st: State<F, N, S, T>)
    requires Fits(bs, st) && At(bs, i, h)
    ensures var d := Descend(kit, bs, Rest(bs, i, h), st); (d.halt, d.st) == DownFrom(kit, bs, i, h, st)
    decreases |bs| - i, if i < |bs| then |bs[i].hooks| - h else 0
  {
    if i < |bs| {
      var f, st1 := FrameFrom(bs, i, h), StepDown(kit, bs, FrameFrom(bs, i, h), st).1;
      var (i', h') := if h < |bs[i].hooks| then (i, h + 1) else (i + 1, 0);
      DescendIs(kit, bs, i', h', st1);
      DescendFirst(kit, bs, f, Rest(bs, i', h'), st);
      assert Rest(bs, i, h) == [f] + Rest(bs, i', h');
    }
  }

  lemma DescendFirst<F, N, S, T>(kit: Kit<F, N, S, T>, bs: seq<Builder<F>>, f: Frame, fs: seq<Frame>,
        st: State<F, N, S, T>)
    requires Fits(bs, st) && FrameOk(bs, f) && FramesOk(bs, fs)
    ensures FramesOk(bs, [f] + fs)
    ensures var (halt, st1) := StepDown(kit, bs, f, st);
            var d := Descend(kit, bs, [f] + fs, st);
            if halt.Some? then d.halt == halt && d.st == Log(st1, Leave(f))
            else d.halt == Descend(kit, bs, fs, st1).halt && d.st == Descend(kit, bs, fs, st1).st
  {
    assert ([f] + fs)[1..] == fs;
  }

  /** The way back as nested returns. */
  ghost function Nested<F, N, S, T>(kit: Kit<F, N, S, T>, bs: seq<Builder<F>>, fs: seq<Frame>, o: Outcome,
        st: State<F, N, S, T>)
    : (r: (Outcome, State<F, N, S, T>))
    requires FramesOk(bs, fs) && Fits(bs, st)
    ensures Fits(bs, r.1)
  {
    if fs == [] then (o, st)
    else
      var (o1, st1) := Nested(kit, bs, fs[1..], o, st);
      StepUp(kit, bs, fs[0], o1, st1)
  }

  lemma AscendFirst<F, N, S, T>(kit: Kit<F, N, S, T>, bs: seq<Builder<F>>, f: Frame, gs: seq<Frame>, fs: seq<Frame>,
        o: Outcome, st: State<F, N, S, T>)
    requires FramesOk(bs, fs) && FrameOk(bs, f) && FramesOk(bs, gs) && Fits(bs, st) && fs == [f] + gs
    ensures Ascend(kit, bs, fs, o, st) ==
            var (o1, st1) := Ascend(kit, bs, gs, o, st); StepUp(kit, bs, f, o1, st1)
  {
    AscendAround(kit, bs, f, gs, o, st);
  }

  lemma {:induction false} AscendNested<F, N, S, T>(kit: Kit<F, N, S, T>, bs: seq<Builder<F>>, fs: seq<Frame>, o: Outcome,
        st: State<F, N, S, T>)
    requires FramesOk(bs, fs) && Fits(bs, st)
    ensures Ascend(kit, bs, fs, o, st) == Nested(kit, bs, fs, o, st)
  {
    if fs != [] {
      AscendNested(kit, bs, fs[1..], o, st);
      AscendFirst(kit, bs, fs[0], fs[1..], fs, o, st);
    }
  }

  lemma {:induction false} NestedIs<F, N, S, T>(kit: Kit<F, N, S, T>, bs: seq<Builder<F>>, i: nat, h: nat, o: Outcome,
        st: State<F, N, S, T>)
    requires Fits(bs, st) && At(bs, i, h)
    ensures Nested(kit, bs, Rest(bs, i, h), o, st) == UpFrom(kit, bs, i, h, o, st)
    decreases |bs| - i, if i < |bs| then |bs[i].hooks| - h else 0
  {
    if i < |bs| {
      var (i', h') := if h < |bs[i].hooks| then (i, h + 1) else (i + 1, 0);
      NestedIs(kit, bs, i', h', o, st);
      assert Rest(bs, i, h)[1..] == Rest(bs, i', h');
    }
  }

  lemma AscendIs<F, N, S, T>(kit: Kit<F, N, S, T>, bs: seq<Builder<F>>, i: nat, h: nat, o: Outcome, st: State<F, N, S, T>)
    requires Fits(bs, st) && At(bs, i, h)
    ensures Ascend(kit, bs, Rest(bs, i, h), o, st) == UpFrom(kit, bs, i, h, o, st)
  {
    AscendNested(kit, bs, Rest(bs, i, h), o, st);
    NestedIs(kit, bs, i, h, o, st);
  }

  // ---------------------------------------------------------------------------------------
  // A whole save

  /** Every builder's defaults are set before the chain starts. */
  ghost function WithDefaults<F, N, S, T>(kit: Kit<F, N, S, T>, bs: seq<Builder<F>>, n: nat, muts: map<Builder<F>,
        Mutation<F>>)
    : (r: map<Builder<F>, Mutation<F>>)
    requires n <= |bs| && forall k :: 0 <= k < |bs| ==> bs[k] in muts
    ensures r.Keys == muts.Keys
  {
    if n == 0 then muts
    else
      var m := WithDefaults(kit, bs, n - 1, muts);
      var b := bs[n - 1];
      m[b := m[b].(fields := kit.defaults(m[b].fields, n - 1))]
  }

  ghost function Start<F, N, S, T>(kit: Kit<F, N, S, T>, bs: seq<Builder<F>>, muts: map<Builder<F>, Mutation<F>>,
        table: T, trace: seq<Event>)
    : (st: State<F, N, S, T>)
    requires forall k :: 0 <= k < |bs| ==> bs[k] in muts
    ensures Fits(bs, st)
  {
    State(WithDefaults(kit, bs, |bs|, muts), seq(|bs|, _ => None), seq(|bs|, _ => None), table, trace)
  }

  /** A hook that leaves outcomes alone: it passes through, edits in place, or aborts with an error. */
  ghost predicate Neutral<F(!new)>(hook: Hook<F>) {
    && (forall x, o :: hook.after(x, o).1 == o)
    && (forall x :: hook.before(x).Stop? ==> hook.before(x).o.Failed?)
  }

  ghost predicate AllNeutral<F(!new)>(bs: seq<Builder<F>>) {
    forall i, h :: 0 <= i < |bs| && 0 <= h < |bs[i].hooks| ==> Neutral(bs[i].hooks[h])
  }

  /** On the way up only the outcome, the mutations and the trace can change. */
  lemma {:induction false} AscendKeepsRows<F, N, S, T>(kit: Kit<F, N, S, T>, bs: seq<Builder<F>>, fs: seq<Frame>,
        o: Outcome, st: State<F, N, S, T>)
    requires FramesOk(bs, fs) && Fits(bs, st)
    ensures var out := Ascend(kit, bs, fs, o, st).1;
            out.table == st.table && out.nodes == st.nodes && out.specs == st.specs
    decreases |fs|
  {
    if fs != [] {
      var (o1, st1) := StepUp(kit, bs, fs[|fs| - 1], o, st);
      AscendKeepsRows(kit, bs, fs[..|fs| - 1], o1, st1);
    }
  }

  lemma {:induction false} DescendKeepsTable<F, N, S, T>(kit: Kit<F, N, S, T>, bs: seq<Builder<F>>, fs: seq<Frame>,
        st: State<F, N, S, T>)
    requires FramesOk(bs, fs) && Fits(bs, st)
    ensures var d := Descend(kit, bs, fs, st);
            d.st.table == st.table && d.st.muts.Keys == st.muts.Keys &&
            (forall b :: b in st.muts ==> d.st.muts[b].done == st.muts[b].done)
  {
    if fs != [] {
      var (halt, st1) := StepDown(kit, bs, fs[0], st);
      if halt.None? {
        DescendKeepsTable(kit, bs, fs[1..], st1);
      }
    }
  }

  lemma {:induction false} DescendFailsOnlyWithErrors<F(!new), N, S, T>(kit: Kit<F, N, S, T>, bs: seq<Builder<F>>,
        fs: seq<Frame>, st: State<F, N, S, T>)
    requires FramesOk(bs, fs) && Fits(bs, st) && AllNeutral(bs)
    ensures var d := Descend(kit, bs, fs, st); d.halt.Some? ==> d.halt.value.Failed?
  {
    if fs != [] {
      var (halt, st1) := StepDown(kit, bs, fs[0], st);
      if halt.None? {
        DescendFailsOnlyWithErrors(kit, bs, fs[1..], st1);
      } else if fs[0].HookFrame? {
        assert Neutral(bs[fs[0].i].hooks[fs[0].h]);
      }
    }
  }

  /** Under neutral hooks the way up keeps the outcome; an error marks nothing, a success marks
      the builder of every mutator frame. */
  lemma {:induction false} AscendMarks<F(!new), N, S, T>(kit: Kit<F, N, S, T>, bs: seq<Builder<F>>, fs: seq<Frame>,
        o: Outcome, st: State<F, N, S, T>)
    requires FramesOk(bs, fs) && Fits(bs, st) && AllNeutral(bs)
    requires AllFilled(st.nodes) || o.Failed?
    ensures var (o', out) := Ascend(kit, bs, fs, o, st);
            && o' == o && out.muts.Keys == st.muts.Keys
            && (o.Failed? ==> forall b :: b in st.muts ==> out.muts[b].done == st.muts[b].done)
            && (o.Done? ==> forall b :: b in st.muts && st.muts[b].done ==> out.muts[b].done)
            && (o.Done? ==> forall k :: 0 <= k < |fs| && fs[k].CoreFrame? ==> out.muts[bs[fs[k].i]].done)
    decreases |fs|
  {
    if fs != [] {
      var f := fs[|fs| - 1];
      if f.HookFrame? {
        assert Neutral(bs[f.i].hooks[f.h]);
      }
      var (o1, st1) := StepUp(kit, bs, f, o, st);
      AscendMarks(kit, bs, fs[..|fs| - 1], o1, st1);
      if o.Done? {
        var out := Ascend(kit, bs, fs, o, st).1;
        forall k | 0 <= k < |fs| && fs[k].CoreFrame? ensures out.muts[bs[fs[k].i]].done {
          if k < |fs| - 1 {
            assert fs[..|fs| - 1][k] == fs[k];
          } else {
            assert st1.muts[bs[f.i]].done;
          }
        }
      }
    }
  }

  /** Every builder's mutator has a frame. */
  lemma {:induction false} CoreFrameIn<F>(bs: seq<Builder<F>>, i: nat, h: nat, k: nat) returns (at: nat)
    requires i <= k < |bs| && h <= |bs[i].hooks|
    ensures at < |Rest(bs, i, h)| && Rest(bs, i, h)[at] == CoreFrame(k)
    decreases |bs| - i, |bs[i].hooks| - h
  {
    if h < |bs[i].hooks| {
      at := CoreFrameIn(bs, i, h + 1, k);
      at := at + 1;
    } else if i == k {
      at := 0;
    } else {
      at := CoreFrameIn(bs, i + 1, 0, k);
      at := at + 1;
    }
  }

  /** Slot k holds what builder k's own mutation gives. */
  ghost predicate OwnSlot<F, N, S, T>(kit: Kit<F, N, S, T>, bs: seq<Builder<F>>, k: nat, st: State<F, N, S, T>)
    requires Fits(bs, st) && k < |bs|
  {
    var fields := st.muts[bs[k]].fields;
    st.nodes[k] == Some(kit.node(fields)) && st.specs[k] == Some(kit.spec(fields))
  }

  ghost predicate Filled<F, N, S, T>(st: State<F, N, S, T>, n: nat)
    requires n <= |st.nodes| && n <= |st.specs|
  {
    forall k :: 0 <= k < n ==> st.nodes[k].Some? && st.specs[k].Some?
  }

  lemma FilledStep<F, N, S, T>(kit: Kit<F, N, S, T>, bs: seq<Builder<F>>, f: Frame, st: State<F, N, S, T>)
    requires Fits(bs, st) && FrameOk(bs, f) && Filled(st, f.i)
    ensures var (halt, st1) := StepDown(kit, bs, f, st);
            halt.None? ==> Filled(st1, if f.CoreFrame? then f.i + 1 else f.i)
  {
  }

  /** A descent that reaches the bottom has filled every slot. */
  lemma {:induction false} DescentFillsSlots<F, N, S, T>(kit: Kit<F, N, S, T>, bs: seq<Builder<F>>, i: nat, h: nat,
        st: State<F, N, S, T>)
    requires Fits(bs, st) && At(bs, i, h) && Filled(st, i)
    ensures var (halt, bottom) := DownFrom(kit, bs, i, h, st);
            halt.None? ==> AllFilled(bottom.nodes) && AllFilled(bottom.specs)
    decreases |bs| - i, if i < |bs| then |bs[i].hooks| - h else 0
  {
    if i < |bs| {
      var (halt, st1) := StepDown(kit, bs, FrameFrom(bs, i, h), st);
      FilledStep(kit, bs, FrameFrom(bs, i, h), st);
      if halt.None? {
        if h < |bs[i].hooks| {
          DescentFillsSlots(kit, bs, i, h + 1, st1);
        } else {
          DescentFillsSlots(kit, bs, i + 1, 0, st1);
        }
      }
    }
  }

  ghost predicate OwnSlots<F, N, S, T>(kit: Kit<F, N, S, T>, bs: seq<Builder<F>>, n: nat, st: State<F, N, S, T>)
    requires Fits(bs, st) && n <= |bs|
  {
    forall k :: 0 <= k < n ==> OwnSlot(kit, bs, k, st)
  }

  /** What a builder's hooks, from number h on, make of its fields before the call: edits in turn, or a stop. */
  ghost function Through<F>(hooks: seq<Hook<F>>, h: nat, x: F): Before<F>
    requires h <= |hooks|
    decreases |hooks| - h
  {
    if h == |hooks| then Proceed(x)
    else
      match hooks[h].before(x)
      case Stop(o) => Stop(o)
      case Proceed(y) => Through(hooks, h + 1, y)
  }

  /** The hooks go on and the fields pass the checks. */
  ghost predicate Ready<F, N, S, T>(kit: Kit<F, N, S, T>, e: Before<F>) { e.Proceed? && kit.check(e.fields).None? }

  /** How a builder that is not ready ends the descent. */
  ghost function Refusal<F, N, S, T>(kit: Kit<F, N, S, T>, e: Before<F>): Outcome
    requires !Ready(kit, e)
  {
    if e.Stop? then e.o else Failed(kit.check(e.fields).value)
  }

  /** What becomes of builder k's fields from hook h of builder i on. */
  ghost function Edited<F, N, S, T>(bs: seq<Builder<F>>, i: nat, h: nat, st: State<F, N, S, T>, k: nat): Before<F>
    requires Fits(bs, st) && i <= k < |bs| && h <= |bs[i].hooks|
  {
    Through(bs[k].hooks, if k == i then h else 0, st.muts[bs[k]].fields)
  }

  /** Builder k has these fields, and its slots are filled from them. */
  ghost predicate FilledFrom<F, N, S, T>(kit: Kit<F, N, S, T>, bs: seq<Builder<F>>, k: nat, st: State<F, N, S, T>, x: F)
    requires Fits(bs, st) && k < |bs|
  {
    st.muts[bs[k]].fields == x && st.nodes[k] == Some(kit.node(x)) && st.specs[k] == Some(kit.spec(x))
  }

  lemma EditStep<F, N, S, T>(kit: Kit<F, N, S, T>, bs: seq<Builder<F>>, i: nat, h: nat, st: State<F, N, S, T>)
    requires Fits(bs, st) && NoDup(bs) && i < |bs| && h < |bs[i].hooks|
    ensures var (halt, st1) := StepDown(kit, bs, HookFrame(i, h), st);
            && (halt.Some? ==> Edited(bs, i, h, st, i) == Stop(halt.value))
            && (halt.None? ==> forall k :: i <= k < |bs| ==> Edited(bs, i, h + 1, st1, k) == Edited(bs, i, h, st, k))
            && (halt.None? ==> st1.nodes == st.nodes && st1.specs == st.specs)
            && (halt.None? ==> forall k :: 0 <= k < i ==> st1.muts[bs[k]] == st.muts[bs[k]])
  {
    forall k | 0 <= k < |bs| && k != i ensures bs[k] != bs[i] {
    }
  }

  lemma CoreStep<F, N, S, T>(kit: Kit<F, N, S, T>, bs: seq<Builder<F>>, i: nat, st: State<F, N, S, T>)
    requires Fits(bs, st) && i < |bs|
    ensures var (halt, st1) := StepDown(kit, bs, CoreFrame(i), st);
            var x := st.muts[bs[i]].fields;
            && (halt.Some? <==> kit.check(x).Some?) && (halt.Some? ==> halt.value == Failed(kit.check(x).value))
            && (halt.None? ==> st1.muts == st.muts && FilledFrom(kit, bs, i, st1, x))
            && (halt.None? ==> forall k :: 0 <= k < |bs| && k != i ==> st1.nodes[k] == st.nodes[k] && st1.specs[k] == st.specs[k])
  {
  }

  /** Builder k is the first that is not ready, and ends the descent with this outcome. */
  ghost predicate StopsAt<F, N, S, T>(kit: Kit<F, N, S, T>, es: seq<Before<F>>, k: nat, o: Outcome) {
    k < |es| && !Ready(kit, es[k]) && Refusal(kit, es[k]) == o && forall j :: 0 <= j < k ==> Ready(kit, es[j])
  }

  /** How far the descent has come: the builders it has passed were ready and have filled their slots. */
  ghost predicate Passed<F, N, S, T>(kit: Kit<F, N, S, T>, bs: seq<Builder<F>>, es: seq<Before<F>>, n: nat,
        st: State<F, N, S, T>)
    requires Fits(bs, st) && n <= |bs| == |es|
  {
    forall k :: 0 <= k < n ==> Ready(kit, es[k]) && FilledFrom(kit, bs, k, st, es[k].fields)
  }

  ghost predicate Ahead<F, N, S, T>(bs: seq<Builder<F>>, es: seq<Before<F>>, i: nat, h: nat, st: State<F, N, S, T>)
    requires Fits(bs, st) && i <= |bs| == |es| && (i < |bs| ==> h <= |bs[i].hooks|)
  {
    forall k :: i <= k < |bs| ==> es[k] == Edited(bs, i, h, st, k)
  }

  /** One frame on: either it stops the descent as foreseen, or things are as foreseen at the next frame. */
  lemma AheadStep<F, N, S, T>(kit: Kit<F, N, S, T>, bs: seq<Builder<F>>, i: nat, h: nat, st: State<F, N, S, T>,
        es: seq<Before<F>>)
    requires Fits(bs, st) && NoDup(bs) && |es| == |bs| && i < |bs| && h <= |bs[i].hooks|
    requires Passed(kit, bs, es, i, st) && Ahead(bs, es, i, h, st)
    ensures var (halt, st1) := StepDown(kit, bs, FrameFrom(bs, i, h), st);
            var (i', h') := if h < |bs[i].hooks| then (i, h + 1) else (i + 1, 0);
            if halt.Some? then StopsAt(kit, es, i, halt.value)
            else Passed(kit, bs, es, i', st1) && Ahead(bs, es, i', h', st1)
  {
    var (halt, st1) := StepDown(kit, bs, FrameFrom(bs, i, h), st);
    assert es[i] == Edited(bs, i, h, st, i);
    if h < |bs[i].hooks| {
      EditStep(kit, bs, i, h, st);
      if halt.None? {
        forall k | 0 <= k < i ensures FilledFrom(kit, bs, k, st1, es[k].fields) {
          assert FilledFrom(kit, bs, k, st, es[k].fields);
        }
      }
    } else {
      CoreStep(kit, bs, i, st);
      if halt.None? {
        forall k | 0 <= k <= i ensures Ready(kit, es[k]) && FilledFrom(kit, bs, k, st1, es[k].fields) {
          assert k < i ==> FilledFrom(kit, bs, k, st, es[k].fields);
        }
      }
    }
  }

  /** The insert is reached exactly when every builder is ready, and then each slot is filled from what the builder's
      own hooks made of its fields; otherwise the first builder that is not ready says how the descent ends. */
  lemma {:induction false} DescentEdits<F, N, S, T>(kit: Kit<F, N, S, T>, bs: seq<Builder<F>>, i: nat, h: nat,
        st: State<F, N, S, T>, es: seq<Before<F>>)
    requires Fits(bs, st) && NoDup(bs) && |es| == |bs| && At(bs, i, h)
    requires Passed(kit, bs, es, i, st) && Ahead(bs, es, i, h, st)
    ensures var (halt, bottom) := DownFrom(kit, bs, i, h, st);
            match halt
            case None => Passed(kit, bs, es, |bs|, bottom)
            case Some(o) => exists k :: StopsAt(kit, es, k, o)
    decreases |bs| - i, if i < |bs| then |bs[i].hooks| - h else 0
  {
    if i < |bs| {
      AheadStep(kit, bs, i, h, st, es);
      var (halt, st1) := StepDown(kit, bs, FrameFrom(bs, i, h), st);
      if halt.None? {
        if h < |bs[i].hooks| {
          DescentEdits(kit, bs, i, h + 1, st1, es);
        } else {
          DescentEdits(kit, bs, i + 1, 0, st1, es);
        }
      }
    }
  }

  /** What the builders' hooks make of their fields. */
  ghost function Edits<F, N, S, T>(bs: seq<Builder<F>>, st: State<F, N, S, T>): (es: seq<Before<F>>)
    requires Fits(bs, st)
    ensures |es| == |bs|
  {
    seq(|bs|, k requires 0 <= k < |bs| => Edited(bs, 0, 0, st, k))
  }

  /** Where the descent of a whole save ends; each slot is filled, from its own builder when none is passed twice. */
  lemma BottomFilled<F, N, S, T>(kit: Kit<F, N, S, T>, bs: seq<Builder<F>>, st: State<F, N, S, T>)
    requires Fits(bs, st)
    ensures var d := Descend(kit, bs, Rest(bs, 0, 0), st);
            && (d.halt.None? ==> AllFilled(d.st.nodes) && AllFilled(d.st.specs))
            && (NoDup(bs) ==>
              match d.halt
              case None => Passed(kit, bs, Edits(bs, st), |bs|, d.st) && OwnSlots(kit, bs, |bs|, d.st)
              case Some(o) => exists k :: StopsAt(kit, Edits(bs, st), k, o))
  {
    DescendIs(kit, bs, 0, 0, st);
    DescentFillsSlots(kit, bs, 0, 0, st);
    if NoDup(bs) {
      DescentEdits(kit, bs, 0, 0, st, Edits(bs, st));
      var bottom := DownFrom(kit, bs, 0, 0, st).1;
      assert Passed(kit, bs, Edits(bs, st), |bs|, bottom) ==> OwnSlots(kit, bs, |bs|, bottom) by {
        if Passed(kit, bs, Edits(bs, st), |bs|, bottom) {
          forall k | 0 <= k < |bs| ensures OwnSlot(kit, bs, k, bottom) {
            assert FilledFrom(kit, bs, k, bottom, Edits(bs, st)[k].fields);
          }
        }
      }
    }
  }

  /** A failed save: no row written, no mutation marked. */
  ghost predicate NothingHappened<F, N, S, T>(st: State<F, N, S, T>, out: State<F, N, S, T>) {
    out.table == st.table && out.muts.Keys == st.muts.Keys &&
    forall b :: b in st.muts ==> out.muts[b].done == st.muts[b].done
  }

  /** A successful save: the batch insert ran on all rows; builder k's node and row were made from
      its mutation as it stood when the insert ran (`bottom`), and every builder is marked. */
  ghost predicate AllHappened<F, N, S, T>(kit: Kit<F, N, S, T>, bs: seq<Builder<F>>, st: State<F, N, S, T>,
        bottom: State<F, N, S, T>, out: State<F, N, S, T>)
    requires Fits(bs, bottom) && Fits(bs, out)
  {
    && AllFilled(out.specs) && kit.batch(st.table, Values(out.specs)) == Ok(out.table)
    && AllFilled(out.nodes) && out.nodes == bottom.nodes && out.specs == bottom.specs
    && (forall k :: 0 <= k < |bs| ==> out.muts[bs[k]].done)
    && (NoDup(bs) ==> OwnSlots(kit, bs, |bs|, bottom))
  }

  /** All or nothing, under neutral hooks; and the save succeeds exactly when nothing stops the
      descent and the database accepts the rows. */
  lemma AllOrNothing<F(!new), N, S, T>(kit: Kit<F, N, S, T>, bs: seq<Builder<F>>, muts: map<Builder<F>, Mutation<F>>,
        table: T)
    requires bs != [] && AllNeutral(bs) && forall k :: 0 <= k < |bs| ==> bs[k] in muts
    ensures var st := Start(kit, bs, muts, table, []);
            var d := Descend(kit, bs, Rest(bs, 0, 0), st);
            var (o, out) := PlainLoop(kit, bs, Rest(bs, 0, 0), st);
            && (if o.Failed? then NothingHappened(st, out) else AllHappened(kit, bs, st, d.st, out))
            && (o.Done? <==> d.halt.None? && AllFilled(d.st.specs) && kit.batch(table, Values(d.st.specs)).Ok?)
  {
    var fs := Rest(bs, 0, 0);
    var st := Start(kit, bs, muts, table, []);
    var d := Descend(kit, bs, fs, st);
    DescendKeepsTable(kit, bs, fs, st);
    DescendFailsOnlyWithErrors(kit, bs, fs, st);
    BottomFilled(kit, bs, st);
    var (o, st1) := if d.halt.Some? then (d.halt.value, d.st) else Insert(kit, d.st);
    AscendKeepsRows(kit, bs, fs[..d.passed], o, st1);
    AscendMarks(kit, bs, fs[..d.passed], o, st1);
    if o.Done? {
      assert fs[..d.passed] == fs;
      AllMarked(kit, bs, fs, o, st1);
    }
  }

  lemma AllMarked<F(!new), N, S, T>(kit: Kit<F, N, S, T>, bs: seq<Builder<F>>, fs: seq<Frame>, o: Outcome,
        st: State<F, N, S, T>)
    requires fs == Rest(bs, 0, 0) && Fits(bs, st) && AllNeutral(bs) && AllFilled(st.nodes) && o.Done?
    ensures forall k :: 0 <= k < |bs| ==> Ascend(kit, bs, fs, o, st).1.muts[bs[k]].done
  {
    AscendMarks(kit, bs, fs, o, st);
    forall k | 0 <= k < |bs| ensures Ascend(kit, bs, fs, o, st).1.muts[bs[k]].done {
      var at := CoreFrameIn(bs, 0, 0, k);
    }
  }

  // ---------------------------------------------------------------------------------------
  // What becomes of each builder, read off its own hooks

  /** A builder's fields once its mutator is back: with the identifier of its node after a success. */
  ghost function Marked<F, N, S, T>(kit: Kit<F, N, S, T>, x: F, o: Outcome): F {
    if o.Done? then kit.withId(x, kit.node(x)) else x
  }

  /** What a builder's hooks, back to number h, make of its fields and the outcome after the call. */
  ghost function Back<F>(hooks: seq<Hook<F>>, h: nat, x: F, o: Outcome): (F, Outcome)
    requires h <= |hooks|
    decreases |hooks| - h
  {
    if h == |hooks| then (x, o)
    else
      var (x1, o1) := Back(hooks, h + 1, x, o);
      hooks[h].after(x1, o1)
  }

  /** What the builders return, outermost first and the insert last, and their mutations in the end. */
  datatype Ends<F> = Ends(outcomes: seq<Outcome>, mutations: seq<Mutation<F>>)

  ghost predicate EndsFit<F>(bs: seq<Builder<F>>, ends: Ends<F>) {
    |ends.outcomes| == |bs| + 1 && |ends.mutations| == |bs|
  }

  /** Builder k's end follows from what comes from inside it. */
  ghost predicate Link<F, N, S, T>(kit: Kit<F, N, S, T>, bs: seq<Builder<F>>, xs: seq<F>, ends: Ends<F>,
        st: State<F, N, S, T>, k: nat)
    requires Fits(bs, st) && EndsFit(bs, ends) && k < |bs| == |xs|
  {
    var inner := ends.outcomes[k + 1];
    var (x, o) := Back(bs[k].hooks, 0, Marked(kit, xs[k], inner), inner);
    ends.outcomes[k] == o && ends.mutations[k] == Mutation(x, st.muts[bs[k]].done || inner.Done?)
  }

  /** The builders from i on have ended, the others are as they were. */
  ghost predicate Ended<F, N, S, T>(bs: seq<Builder<F>>, ends: Ends<F>, i: nat, st: State<F, N, S, T>, o: Outcome,
        out: State<F, N, S, T>)
    requires Fits(bs, st) && Fits(bs, out) && EndsFit(bs, ends) && i <= |bs|
  {
    && o == ends.outcomes[i] && out.nodes == st.nodes
    && (forall k :: i <= k < |bs| ==> out.muts[bs[k]] == ends.mutations[k])
    && (forall k :: 0 <= k < i ==> out.muts[bs[k]] == st.muts[bs[k]])
  }

  /** The builders after i have ended, and builder i has returned as far as hook h. */
  ghost predicate Partway<F, N, S, T>(kit: Kit<F, N, S, T>, bs: seq<Builder<F>>, xs: seq<F>, ends: Ends<F>, i: nat,
        h: nat, st: State<F, N, S, T>, o: Outcome, out: State<F, N, S, T>)
    requires Fits(bs, st) && Fits(bs, out) && EndsFit(bs, ends) && i < |bs| == |xs| && h <= |bs[i].hooks|
  {
    var inner := ends.outcomes[i + 1];
    && (out.muts[bs[i]].fields, o) == Back(bs[i].hooks, h, Marked(kit, xs[i], inner), inner)
    && out.muts[bs[i]].done == (st.muts[bs[i]].done || inner.Done?)
    && out.nodes == st.nodes
    && (forall k :: i < k < |bs| ==> out.muts[bs[k]] == ends.mutations[k])
    && (forall k :: 0 <= k < i ==> out.muts[bs[k]] == st.muts[bs[k]])
  }

  lemma BackOut<F, N, S, T>(kit: Kit<F, N, S, T>, bs: seq<Builder<F>>, xs: seq<F>, ends: Ends<F>, i: nat,
        st: State<F, N, S, T>, o: Outcome, out: State<F, N, S, T>)
    requires Fits(bs, st) && Fits(bs, out) && EndsFit(bs, ends) && i < |bs| == |xs|
    requires Link(kit, bs, xs, ends, st, i) && Partway(kit, bs, xs, ends, i, 0, st, o, out)
    ensures Ended(bs, ends, i, st, o, out)
  {
  }

  lemma BackHook<F, N, S, T>(kit: Kit<F, N, S, T>, bs: seq<Builder<F>>, xs: seq<F>, ends: Ends<F>, i: nat, h: nat,
        st: State<F, N, S, T>, o: Outcome, out: State<F, N, S, T>)
    requires Fits(bs, st) && Fits(bs, out) && EndsFit(bs, ends) && NoDup(bs) && i < |bs| == |xs| && h < |bs[i].hooks|
    requires Partway(kit, bs, xs, ends, i, h + 1, st, o, out)
    ensures var (o', out') := StepUp(kit, bs, HookFrame(i, h), o, out);
            Partway(kit, bs, xs, ends, i, h, st, o', out')
  {
    var out' := StepUp(kit, bs, HookFrame(i, h), o, out).1;
    forall k | 0 <= k < |bs| && k != i ensures out'.muts[bs[k]] == out.muts[bs[k]] {
      assert bs[k] != bs[i];
    }
  }

  lemma BackCore<F, N, S, T>(kit: Kit<F, N, S, T>, bs: seq<Builder<F>>, xs: seq<F>, ends: Ends<F>, i: nat,
        st: State<F, N, S, T>, o: Outcome, out: State<F, N, S, T>)
    requires Fits(bs, st) && Fits(bs, out) && EndsFit(bs, ends) && NoDup(bs) && i < |bs| == |xs|
    requires FilledFrom(kit, bs, i, st, xs[i]) && Ended(bs, ends, i + 1, st, o, out)
    ensures var (o', out') := StepUp(kit, bs, CoreFrame(i), o, out);
            Partway(kit, bs, xs, ends, i, |bs[i].hooks|, st, o', out')
  {
    var out' := StepUp(kit, bs, CoreFrame(i), o, out).1;
    forall k | 0 <= k < |bs| && k != i ensures out'.muts[bs[k]] == out.muts[bs[k]] {
      assert bs[k] != bs[i];
    }
  }

  /** After the insert each builder's hooks, from the last builder's innermost to the first builder's outermost, make
      what they will of its fields and of the outcome that comes from inside. */
  lemma {:induction false} AscentEdits<F, N, S, T>(kit: Kit<F, N, S, T>, bs: seq<Builder<F>>, xs: seq<F>, ends: Ends<F>,
        i: nat, h: nat, o: Outcome, st: State<F, N, S, T>)
    requires Fits(bs, st) && NoDup(bs) && EndsFit(bs, ends) && i < |bs| == |xs| && h <= |bs[i].hooks|
    requires forall k :: 0 <= k < |bs| ==> FilledFrom(kit, bs, k, st, xs[k])
    requires ends.outcomes[|bs|] == o && forall k :: 0 <= k < |bs| ==> Link(kit, bs, xs, ends, st, k)
    ensures var (o', out) := UpFrom(kit, bs, i, h, o, st);
            Partway(kit, bs, xs, ends, i, h, st, o', out)
    decreases |bs| - i, |bs[i].hooks| - h
  {
    if h < |bs[i].hooks| {
      AscentEdits(kit, bs, xs, ends, i, h + 1, o, st);
      var (o1, st1) := UpFrom(kit, bs, i, h + 1, o, st);
      BackHook(kit, bs, xs, ends, i, h, st, o1, st1);
    } else {
      var (o1, st1) := UpFrom(kit, bs, i + 1, 0, o, st);
      if i + 1 < |bs| {
        AscentEdits(kit, bs, xs, ends, i + 1, 0, o, st);
        BackOut(kit, bs, xs, ends, i + 1, st, o1, st1);
      }
      BackCore(kit, bs, xs, ends, i, st, o1, st1);
    }
  }

  /** What the insert, after all builders, or builder k with all inside it returns. */
  ghost function Returned<F, N, S, T>(kit: Kit<F, N, S, T>, bs: seq<Builder<F>>, xs: seq<F>, k: nat, o: Outcome): Outcome
    requires k <= |bs| == |xs|
    decreases |bs| - k
  {
    if k == |bs| then o
    else
      var inner := Returned(kit, bs, xs, k + 1, o);
      Back(bs[k].hooks, 0, Marked(kit, xs[k], inner), inner).1
  }

  ghost function EndsOf<F, N, S, T>(kit: Kit<F, N, S, T>, bs: seq<Builder<F>>, xs: seq<F>, st: State<F, N, S, T>,
        o: Outcome): (ends: Ends<F>)
    requires Fits(bs, st) && |xs| == |bs|
    ensures EndsFit(bs, ends) && ends.outcomes[|bs|] == o
    ensures forall k :: 0 <= k < |bs| ==> Link(kit, bs, xs, ends, st, k)
  {
    var outcomes := seq(|bs| + 1, k requires 0 <= k <= |bs| => Returned(kit, bs, xs, k, o));
    var mutations := seq(|bs|, k requires 0 <= k < |bs| =>
      Mutation(Back(bs[k].hooks, 0, Marked(kit, xs[k], outcomes[k + 1]), outcomes[k + 1]).0,
               st.muts[bs[k]].done || outcomes[k + 1].Done?));
    Ends(outcomes, mutations)
  }

  /** The way back of a whole save that has reached the insert. */
  lemma BackFromInsert<F, N, S, T>(kit: Kit<F, N, S, T>, bs: seq<Builder<F>>, xs: seq<F>, o: Outcome,
        st: State<F, N, S, T>)
    requires Fits(bs, st) && NoDup(bs) && bs != [] && |xs| == |bs|
    requires forall k :: 0 <= k < |bs| ==> FilledFrom(kit, bs, k, st, xs[k])
    ensures var ends := EndsOf(kit, bs, xs, st, o);
            var (o', out) := Ascend(kit, bs, Rest(bs, 0, 0), o, st);
            Ended(bs, ends, 0, st, o', out)
  {
    var ends := EndsOf(kit, bs, xs, st, o);
    AscentEdits(kit, bs, xs, ends, 0, 0, o, st);
    AscendIs(kit, bs, 0, 0, o, st);
    var (o', out) := UpFrom(kit, bs, 0, 0, o, st);
    BackOut(kit, bs, xs, ends, 0, st, o', out);
  }

  /** Each builder's fields with its own defaults filled in. */
  ghost function Defaulted<F, N, S, T>(kit: Kit<F, N, S, T>, bs: seq<Builder<F>>, muts: map<Builder<F>, Mutation<F>>)
    : (xs: seq<F>)
    requires forall k :: 0 <= k < |bs| ==> bs[k] in muts
    ensures |xs| == |bs|
  {
    seq(|bs|, k requires 0 <= k < |bs| => kit.defaults(muts[bs[k]].fields, k))
  }

  /** Distinct builders get their defaults once each, and nothing else of them changes. */
  lemma {:induction false} DefaultsGiven<F, N, S, T>(kit: Kit<F, N, S, T>, bs: seq<Builder<F>>, n: nat,
        muts: map<Builder<F>, Mutation<F>>)
    requires NoDup(bs) && n <= |bs| && forall k :: 0 <= k < |bs| ==> bs[k] in muts
    ensures var r := WithDefaults(kit, bs, n, muts);
            && (forall k :: 0 <= k < n ==> r[bs[k]] == Mutation(Defaulted(kit, bs, muts)[k], muts[bs[k]].done))
            && (forall k :: n <= k < |bs| ==> r[bs[k]] == muts[bs[k]])
  {
    if n > 0 {
      DefaultsGiven(kit, bs, n - 1, muts);
      forall k | 0 <= k < |bs| && k != n - 1 ensures bs[k] != bs[n - 1] {
      }
    }
  }

  /** What the hooks of each builder make of its fields, defaults filled in. */
  ghost function OwnEdits<F, N, S, T>(kit: Kit<F, N, S, T>, bs: seq<Builder<F>>, muts: map<Builder<F>, Mutation<F>>)
    : (es: seq<Before<F>>)
    requires forall k :: 0 <= k < |bs| ==> bs[k] in muts
    ensures |es| == |bs|
  {
    seq(|bs|, k requires 0 <= k < |bs| => Through(bs[k].hooks, 0, Defaulted(kit, bs, muts)[k]))
  }

  ghost predicate AllReady<F, N, S, T>(kit: Kit<F, N, S, T>, es: seq<Before<F>>) {
    forall k :: 0 <= k < |es| ==> Ready(kit, es[k])
  }

  ghost function FieldsOf<F, N, S, T>(kit: Kit<F, N, S, T>, es: seq<Before<F>>): (xs: seq<F>)
    requires AllReady(kit, es)
    ensures |xs| == |es|
  {
    seq(|es|, k requires 0 <= k < |es| => es[k].fields)
  }

  ghost function RowsOf<F, N, S, T>(kit: Kit<F, N, S, T>, xs: seq<F>): (rows: seq<S>)
    ensures |rows| == |xs|
  {
    seq(|xs|, k requires 0 <= k < |xs| => kit.spec(xs[k]))
  }

  /** Builder k's mutation in the end, if the insert was reached with outcome o. */
  ghost function Final<F, N, S, T>(kit: Kit<F, N, S, T>, bs: seq<Builder<F>>, xs: seq<F>, k: nat, o: Outcome,
        done: bool): Mutation<F>
    requires k < |bs| == |xs|
  {
    var inner := Returned(kit, bs, xs, k + 1, o);
    Mutation(Back(bs[k].hooks, 0, Marked(kit, xs[k], inner), inner).0, done || inner.Done?)
  }

  /** How a save of distinct builders ends, given what their hooks make of their fields: with all of them ready the
      insert gets their rows in order, the outcome and the fields then pass back through the hooks, and node k is
      builder k's; otherwise nothing is inserted. */
  ghost predicate SavedByBuilder<F, N, S, T>(kit: Kit<F, N, S, T>, bs: seq<Builder<F>>, muts: map<Builder<F>,
        Mutation<F>>, table: T, o: Outcome, out: State<F, N, S, T>)
    requires (forall k :: 0 <= k < |bs| ==> bs[k] in muts) && Fits(bs, out)
  {
    var es := OwnEdits(kit, bs, muts);
    if !AllReady(kit, es) then out.table == table
    else
      var xs := FieldsOf(kit, es);
      var inserted := kit.batch(table, RowsOf(kit, xs));
      var end := if inserted.Ok? then Done else Failed(inserted.error);
      && out.table == (if inserted.Ok? then inserted.value else table)
      && o == Returned(kit, bs, xs, 0, end)
      && (forall k :: 0 <= k < |bs| ==> out.nodes[k] == Some(kit.node(xs[k])))
      && (forall k :: 0 <= k < |bs| ==> out.muts[bs[k]] == Final(kit, bs, xs, k, end, muts[bs[k]].done))
  }

  lemma StartEdits<F, N, S, T>(kit: Kit<F, N, S, T>, bs: seq<Builder<F>>, muts: map<Builder<F>, Mutation<F>>, table: T)
    requires NoDup(bs) && forall k :: 0 <= k < |bs| ==> bs[k] in muts
    ensures var st := Start(kit, bs, muts, table, []);
            Edits(bs, st) == OwnEdits(kit, bs, muts) && forall k :: 0 <= k < |bs| ==> st.muts[bs[k]].done == muts[bs[k]].done
  {
    DefaultsGiven(kit, bs, |bs|, muts);
    var st := Start(kit, bs, muts, table, []);
    forall k | 0 <= k < |bs| ensures Edits(bs, st)[k] == OwnEdits(kit, bs, muts)[k] {
      assert st.muts[bs[k]].fields == Defaulted(kit, bs, muts)[k];
    }
  }

  lemma InsertRows<F, N, S, T>(kit: Kit<F, N, S, T>, bs: seq<Builder<F>>, es: seq<Before<F>>, st: State<F, N, S, T>)
    requires Fits(bs, st) && |es| == |bs| && Passed(kit, bs, es, |bs|, st)
    ensures AllReady(kit, es)
    ensures var r := kit.batch(st.table, RowsOf(kit, FieldsOf(kit, es)));
            var (o, out) := Insert(kit, st);
            && o == (if r.Ok? then Done else Failed(r.error)) && out.table == (if r.Ok? then r.value else st.table)
            && out.muts == st.muts && out.nodes == st.nodes && out.specs == st.specs
            && forall k :: 0 <= k < |bs| ==> FilledFrom(kit, bs, k, out, FieldsOf(kit, es)[k])
  {
    var xs := FieldsOf(kit, es);
    forall k | 0 <= k < |bs| ensures st.specs[k] == Some(RowsOf(kit, xs)[k]) {
      assert FilledFrom(kit, bs, k, st, es[k].fields);
    }
    assert Values(st.specs) == RowsOf(kit, xs);
  }

  lemma ReachedEnds<F, N, S, T>(kit: Kit<F, N, S, T>, bs: seq<Builder<F>>, xs: seq<F>, o: Outcome,
        st: State<F, N, S, T>, k: nat)
    requires Fits(bs, st) && NoDup(bs) && bs != [] && |xs| == |bs| && k < |bs|
    requires forall k :: 0 <= k < |bs| ==> FilledFrom(kit, bs, k, st, xs[k])
    ensures var (o', out) := Ascend(kit, bs, Rest(bs, 0, 0), o, st);
            && o' == Returned(kit, bs, xs, 0, o) && out.nodes[k] == Some(kit.node(xs[k]))
            && out.muts[bs[k]] == Final(kit, bs, xs, k, o, st.muts[bs[k]].done)
  {
    BackFromInsert(kit, bs, xs, o, st);
    assert FilledFrom(kit, bs, k, st, xs[k]);
  }

  /** The end of a save that reached the insert. */
  lemma EndsReached<F, N, S, T>(kit: Kit<F, N, S, T>, bs: seq<Builder<F>>, muts: map<Builder<F>, Mutation<F>>, table: T,
        bottom: State<F, N, S, T>)
    requires bs != [] && NoDup(bs) && (forall k :: 0 <= k < |bs| ==> bs[k] in muts) && Fits(bs, bottom)
    requires Passed(kit, bs, OwnEdits(kit, bs, muts), |bs|, bottom) && bottom.table == table
    requires forall k :: 0 <= k < |bs| ==> bottom.muts[bs[k]].done == muts[bs[k]].done
    ensures var (o, st1) := Insert(kit, bottom);
            var (o', out) := Ascend(kit, bs, Rest(bs, 0, 0), o, st1);
            SavedByBuilder(kit, bs, muts, table, o', out)
  {
    var es := OwnEdits(kit, bs, muts);
    InsertRows(kit, bs, es, bottom);
    var (o, st1) := Insert(kit, bottom);
    AscendKeepsRows(kit, bs, Rest(bs, 0, 0), o, st1);
    var xs := FieldsOf(kit, es);
    var (o', out) := Ascend(kit, bs, Rest(bs, 0, 0), o, st1);
    ReachedEnds(kit, bs, xs, o, st1, 0);
    forall k | 0 <= k < |bs|
      ensures out.nodes[k] == Some(kit.node(xs[k])) && out.muts[bs[k]] == Final(kit, bs, xs, k, o, muts[bs[k]].done)
    {
      ReachedEnds(kit, bs, xs, o, st1, k);
    }
  }

  /** A run of the loop that reaches the insert, and one that stops before it. */
  lemma LoopReached<F, N, S, T>(kit: Kit<F, N, S, T>, bs: seq<Builder<F>>, fs: seq<Frame>, st: State<F, N, S, T>)
    requires FramesOk(bs, fs) && Fits(bs, st) && Descend(kit, bs, fs, st).halt.None?
    ensures var bottom := Descend(kit, bs, fs, st).st;
            var (o, st1) := Insert(kit, bottom);
            && PlainLoop(kit, bs, fs, st) == Ascend(kit, bs, fs, o, st1) && bottom.table == st.table
            && forall b :: b in st.muts ==> bottom.muts[b].done == st.muts[b].done
  {
    DescendKeepsTable(kit, bs, fs, st);
    assert fs[..|fs|] == fs;
  }

  lemma LoopStopped<F, N, S, T>(kit: Kit<F, N, S, T>, bs: seq<Builder<F>>, fs: seq<Frame>, st: State<F, N, S, T>)
    requires FramesOk(bs, fs) && Fits(bs, st) && Descend(kit, bs, fs, st).halt.Some?
    ensures PlainLoop(kit, bs, fs, st).1.table == st.table
  {
    var d := Descend(kit, bs, fs, st);
    DescendKeepsTable(kit, bs, fs, st);
    AscendKeepsRows(kit, bs, fs[..d.passed], d.halt.value, d.st);
  }

  lemma LoopStoppedNeutral<F(!new), N, S, T>(kit: Kit<F, N, S, T>, bs: seq<Builder<F>>, fs: seq<Frame>,
        st: State<F, N, S, T>)
    requires FramesOk(bs, fs) && Fits(bs, st) && AllNeutral(bs) && Descend(kit, bs, fs, st).halt.Some?
    ensures var (o, out) := PlainLoop(kit, bs, fs, st);
            && o == Descend(kit, bs, fs, st).halt.value && o.Failed?
            && forall b :: b in st.muts ==> out.muts[b].done == st.muts[b].done
  {
    var d := Descend(kit, bs, fs, st);
    DescendKeepsTable(kit, bs, fs, st);
    DescendFailsOnlyWithErrors(kit, bs, fs, st);
    AscendMarks(kit, bs, fs[..d.passed], d.halt.value, d.st);
  }

  /** Distinct builders, any hooks, any database. */
  lemma SaveByBuilder<F, N, S, T>(kit: Kit<F, N, S, T>, bs: seq<Builder<F>>, muts: map<Builder<F>, Mutation<F>>, table: T)
    requires bs != [] && NoDup(bs) && forall k :: 0 <= k < |bs| ==> bs[k] in muts
    ensures var (o, out) := PlainLoop(kit, bs, Rest(bs, 0, 0), Start(kit, bs, muts, table, []));
            SavedByBuilder(kit, bs, muts, table, o, out)
  {
    var fs, st := Rest(bs, 0, 0), Start(kit, bs, muts, table, []);
    var d := Descend(kit, bs, fs, st);
    StartEdits(kit, bs, muts, table);
    BottomFilled(kit, bs, st);
    if d.halt.None? {
      LoopReached(kit, bs, fs, st);
      EndsReached(kit, bs, muts, table, d.st);
    } else {
      var k :| StopsAt(kit, OwnEdits(kit, bs, muts), k, d.halt.value);
      LoopStopped(kit, bs, fs, st);
    }
  }

  /** Under hooks that leave outcomes alone, the first builder that is not ready says how the save fails. */
  lemma StoppedByBuilder<F(!new), N, S, T>(kit: Kit<F, N, S, T>, bs: seq<Builder<F>>, muts: map<Builder<F>, Mutation<F>>,
        table: T)
    requires NoDup(bs) && AllNeutral(bs) && (forall k :: 0 <= k < |bs| ==> bs[k] in muts)
    requires !AllReady(kit, OwnEdits(kit, bs, muts))
    ensures var (o, out) := PlainLoop(kit, bs, Rest(bs, 0, 0), Start(kit, bs, muts, table, []));
            && out.table == table && (forall k :: 0 <= k < |bs| ==> out.muts[bs[k]].done == muts[bs[k]].done)
            && exists k :: StopsAt(kit, OwnEdits(kit, bs, muts), k, o)
  {
    var fs, st := Rest(bs, 0, 0), Start(kit, bs, muts, table, []);
    StartEdits(kit, bs, muts, table);
    BottomFilled(kit, bs, st);
    LoopStopped(kit, bs, fs, st);
    LoopStoppedNeutral(kit, bs, fs, st);
  }

  // ---------------------------------------------------------------------------------------
  // Without hooks

  ghost predicate Hookless<F>(bs: seq<Builder<F>>) { forall k :: 0 <= k < |bs| ==> bs[k].hooks == [] }

  /** What a save without hooks gives for builders with these fields, defaults filled in: the first failed check, or
      the error of the insert, and nothing changed; otherwise the table with their rows in order, their nodes in
      order, and all of them marked and holding the identifiers. */
  ghost predicate SavedPlainly<F, N, S, T>(kit: Kit<F, N, S, T>, xs: seq<F>, was: seq<Mutation<F>>, table: T,
        now: seq<Mutation<F>>, after: T, result: Result<seq<Option<N>>, string>)
    requires |xs| == |was| == |now|
  {
    if forall k :: 0 <= k < |xs| ==> kit.check(xs[k]).None? then
      if xs == [] then result == Ok([]) && after == table
      else
        match kit.batch(table, seq(|xs|, k requires 0 <= k < |xs| => kit.spec(xs[k])))
        case Err(e) => result == Err(e) && after == table && SameMarks(was, now)
        case Ok(t) =>
          && after == t && result.Ok? && |result.value| == |xs|
          && forall k :: 0 <= k < |xs| ==>
            result.value[k] == Some(kit.node(xs[k])) && now[k] == Mutation(kit.withId(xs[k], kit.node(xs[k])), true)
    else
      && after == table && SameMarks(was, now) && result.Err?
      && exists k :: FirstFault(kit, xs, k, result.error)
  }

  ghost predicate SameMarks<F>(was: seq<Mutation<F>>, now: seq<Mutation<F>>)
    requires |was| == |now|
  {
    forall k :: 0 <= k < |was| ==> now[k].done == was[k].done
  }

  ghost predicate FirstFault<F, N, S, T>(kit: Kit<F, N, S, T>, xs: seq<F>, k: nat, e: string) {
    k < |xs| && kit.check(xs[k]) == Some(e) && forall j :: 0 <= j < k ==> kit.check(xs[j]).None?
  }

  lemma {:induction false} HooklessReturns<F, N, S, T>(kit: Kit<F, N, S, T>, bs: seq<Builder<F>>, xs: seq<F>, k: nat,
        o: Outcome)
    requires Hookless(bs) && k <= |bs| == |xs|
    ensures Returned(kit, bs, xs, k, o) == o
    decreases |bs| - k
  {
    if k < |bs| {
      HooklessReturns(kit, bs, xs, k + 1, o);
    }
  }

  /** The fields with defaults are what is checked and inserted. */
  lemma HooklessEdits<F, N, S, T>(kit: Kit<F, N, S, T>, bs: seq<Builder<F>>, muts: map<Builder<F>, Mutation<F>>)
    requires Hookless(bs) && forall k :: 0 <= k < |bs| ==> bs[k] in muts
    ensures var xs := Defaulted(kit, bs, muts);
            forall k :: 0 <= k < |bs| ==> OwnEdits(kit, bs, muts)[k] == Proceed(xs[k])
  {
  }

  ghost function MutationsOf<F>(bs: seq<Builder<F>>, muts: map<Builder<F>, Mutation<F>>): (r: seq<Mutation<F>>)
    requires forall k :: 0 <= k < |bs| ==> bs[k] in muts
    ensures |r| == |bs|
  {
    seq(|bs|, k requires 0 <= k < |bs| => muts[bs[k]])
  }

  lemma HooklessFinal<F, N, S, T>(kit: Kit<F, N, S, T>, bs: seq<Builder<F>>, xs: seq<F>, k: nat, o: Outcome, done: bool)
    requires Hookless(bs) && k < |bs| == |xs|
    ensures Final(kit, bs, xs, k, o, done) == Mutation(Marked(kit, xs[k], o), done || o.Done?)
  {
    HooklessReturns(kit, bs, xs, k + 1, o);
  }

  ghost function ResultOf<F, N, S, T>(o: Outcome, out: State<F, N, S, T>): Result<seq<Option<N>>, string> {
    match o
    case Done => Ok(out.nodes)
    case Failed(e) => Err(e)
  }

  lemma HooklessReady<F, N, S, T>(kit: Kit<F, N, S, T>, bs: seq<Builder<F>>, muts: map<Builder<F>, Mutation<F>>,
        table: T, o: Outcome, out: State<F, N, S, T>)
    requires bs != [] && Hookless(bs) && (forall k :: 0 <= k < |bs| ==> bs[k] in muts) && Fits(bs, out)
    requires AllReady(kit, OwnEdits(kit, bs, muts)) && SavedByBuilder(kit, bs, muts, table, o, out)
    ensures SavedPlainly(kit, Defaulted(kit, bs, muts), MutationsOf(bs, muts), table, MutationsOf(bs, out.muts), out.table,
                         ResultOf(o, out))
  {
    var xs, es := Defaulted(kit, bs, muts), OwnEdits(kit, bs, muts);
    HooklessEdits(kit, bs, muts);
    forall k | 0 <= k < |bs| ensures kit.check(xs[k]).None? {
      assert Ready(kit, es[k]);
    }
    assert FieldsOf(kit, es) == xs;
    assert RowsOf(kit, xs) == seq(|xs|, k requires 0 <= k < |xs| => kit.spec(xs[k]));
    var r := kit.batch(table, RowsOf(kit, xs));
    var end := if r.Ok? then Done else Failed(r.error);
    HooklessReturns(kit, bs, xs, 0, end);
    forall k | 0 <= k < |bs|
      ensures MutationsOf(bs, out.muts)[k] == Mutation(Marked(kit, xs[k], end), muts[bs[k]].done || end.Done?)
    {
      HooklessFinal(kit, bs, xs, k, end, muts[bs[k]].done);
    }
  }

  lemma HooklessStopped<F, N, S, T>(kit: Kit<F, N, S, T>, bs: seq<Builder<F>>, muts: map<Builder<F>, Mutation<F>>,
        table: T, o: Outcome, out: State<F, N, S, T>)
    requires Hookless(bs) && (forall k :: 0 <= k < |bs| ==> bs[k] in muts) && Fits(bs, out)
    requires out.table == table && forall k :: 0 <= k < |bs| ==> out.muts[bs[k]].done == muts[bs[k]].done
    requires exists k :: StopsAt(kit, OwnEdits(kit, bs, muts), k, o)
    ensures SavedPlainly(kit, Defaulted(kit, bs, muts), MutationsOf(bs, muts), table, MutationsOf(bs, out.muts), out.table,
                         ResultOf(o, out))
  {
    HooklessEdits(kit, bs, muts);
    var xs, es := Defaulted(kit, bs, muts), OwnEdits(kit, bs, muts);
    var k :| StopsAt(kit, es, k, o);
    forall j | 0 <= j < k ensures kit.check(xs[j]).None? {
      assert Ready(kit, es[j]);
    }
    assert FirstFault(kit, xs, k, o.error);
  }

  lemma HooklessSave<F(!new), N, S, T>(kit: Kit<F, N, S, T>, bs: seq<Builder<F>>, muts: map<Builder<F>, Mutation<F>>,
        table: T)
    requires bs != [] && NoDup(bs) && Hookless(bs) && forall k :: 0 <= k < |bs| ==> bs[k] in muts
    ensures var (o, out) := PlainLoop(kit, bs, Rest(bs, 0, 0), Start(kit, bs, muts, table, []));
            SavedPlainly(kit, Defaulted(kit, bs, muts), MutationsOf(bs, muts), table, MutationsOf(bs, out.muts), out.table,
                         ResultOf(o, out))
  {
    var (o, out) := PlainLoop(kit, bs, Rest(bs, 0, 0), Start(kit, bs, muts, table, []));
    SaveByBuilder(kit, bs, muts, table);
    if AllReady(kit, OwnEdits(kit, bs, muts)) {
      HooklessReady(kit, bs, muts, table, o, out);
    } else {
      StoppedByBuilder(kit, bs, muts, table);
      HooklessStopped(kit, bs, muts, table, o, out);
    }
  }

  // ---------------------------------------------------------------------------------------
  // The event trace is perfectly nested, whatever the hooks do

  function Enters(fs: seq<Frame>): seq<Event> {
    if fs == [] then [] else [Enter(fs[0])] + Enters(fs[1..])
  }

  /** Leaving in reverse order. */
  function Leaves(fs: seq<Frame>): seq<Event> {
    if fs == [] then [] else [Leave(fs[|fs| - 1])] + Leaves(fs[..|fs| - 1])
  }

  lemma Regroup<A>(a: seq<A>, b: seq<A>, c: seq<A>)
    ensures (a + b) + c == a + (b + c)
  {
  }

  lemma {:induction false} AscendTrace<F, N, S, T>(kit: Kit<F, N, S, T>, bs: seq<Builder<F>>, fs: seq<Frame>,
        o: Outcome, st: State<F, N, S, T>)
    requires FramesOk(bs, fs) && Fits(bs, st)
    ensures Ascend(kit, bs, fs, o, st).1.trace == st.trace + Leaves(fs)
    decreases |fs|
  {
    if fs != [] {
      var init, last := fs[..|fs| - 1], fs[|fs| - 1];
      var (o1, st1) := StepUp(kit, bs, last, o, st);
      AscendTrace(kit, bs, init, o1, st1);
      Regroup(st.trace, [Leave(last)], Leaves(init));
    }
  }

  lemma {:induction false} DescendTrace<F, N, S, T>(kit: Kit<F, N, S, T>, bs: seq<Builder<F>>, fs: seq<Frame>,
        st: State<F, N, S, T>)
    requires FramesOk(bs, fs) && Fits(bs, st)
    ensures var d := Descend(kit, bs, fs, st);
            d.st.trace == st.trace + Enters(fs[..d.passed]) +
                          if d.halt.None? then [] else [Enter(fs[d.passed]), Leave(fs[d.passed])]
  {
    if fs != [] {
      var (halt, st1) := StepDown(kit, bs, fs[0], st);
      if halt.None? {
        var d := Descend(kit, bs, fs[1..], st1);
        DescendTrace(kit, bs, fs[1..], st1);
        assert fs[..d.passed + 1][1..] == fs[1..][..d.passed];
      }
    }
  }

  /** Frames are entered in builder and hook order down to the first that stops, the batch insert
      runs once and only below all frames, and then the frames are left in exactly the reverse
      order. */
  lemma PerfectlyNested<F, N, S, T>(kit: Kit<F, N, S, T>, bs: seq<Builder<F>>, muts: map<Builder<F>, Mutation<F>>,
        table: T)
    requires bs != [] && forall k :: 0 <= k < |bs| ==> bs[k] in muts
    ensures var st := Start(kit, bs, muts, table, []);
            var fs := Rest(bs, 0, 0);
            var d := Descend(kit, bs, fs, st);
            PlainLoop(kit, bs, fs, st).1.trace ==
            Enters(fs[..d.passed]) +
            (if d.halt.None? then [Batch] else [Enter(fs[d.passed]), Leave(fs[d.passed])]) +
            Leaves(fs[..d.passed])
  {
    var st := Start(kit, bs, muts, table, []);
    var fs := Rest(bs, 0, 0);
    var d := Descend(kit, bs, fs, st);
    DescendTrace(kit, bs, fs, st);
    BottomFilled(kit, bs, st);
    var (o, st1) := if d.halt.Some? then (d.halt.value, d.st) else Insert(kit, d.st);
    AscendTrace(kit, bs, fs[..d.passed], o, st1);
    assert [] + Enters(fs[..d.passed]) == Enters(fs[..d.passed]);
    assert Enters(fs[..d.passed]) + [] == Enters(fs[..d.passed]);
  }

  /** Where a frame stands in the nesting: by builder, then hooks from the outermost, then the mutator. */
  predicate Outside(f: Frame, g: Frame) {
    f.i < g.i || (f.i == g.i && f.HookFrame? && (g.CoreFrame? || f.h < g.h))
  }

  predicate Ordered(fs: seq<Frame>) {
    forall k, l {:trigger fs[k], fs[l]} :: 0 <= k < l < |fs| ==> Outside(fs[k], fs[l])
  }

  lemma {:induction false} RestFrom<F>(bs: seq<Builder<F>>, i: nat, h: nat)
    requires i < |bs| ==> h <= |bs[i].hooks|
    ensures forall k :: 0 <= k < |Rest(bs, i, h)| ==>
              var f := Rest(bs, i, h)[k]; f.i > i || (f.i == i && (f.HookFrame? ==> f.h >= h))
    decreases |bs| - i, if i < |bs| then |bs[i].hooks| - h else 0
  {
    if i < |bs| {
      if h < |bs[i].hooks| {
        RestFrom(bs, i, h + 1);
      } else {
        RestFrom(bs, i + 1, 0);
      }
    }
  }

  /** The frames of a save are in nesting order: hook 0 of a builder is its outermost. */
  lemma {:induction false} FramesInOrder<F>(bs: seq<Builder<F>>, i: nat, h: nat)
    requires i < |bs| ==> h <= |bs[i].hooks|
    ensures Ordered(Rest(bs, i, h))
    decreases |bs| - i, if i < |bs| then |bs[i].hooks| - h else 0
  {
    if i < |bs| {
      var hooked := h < |bs[i].hooks|;
      var i', h' := if hooked then i else i + 1, if hooked then h + 1 else 0;
      var f, rest := if hooked then HookFrame(i, h) else CoreFrame(i), Rest(bs, i', h');
      var fs := Rest(bs, i, h);
      assert fs == [f] + rest;
      FramesInOrder(bs, i', h');
      RestFrom(bs, i', h');
      forall k, l | 0 <= k < l < |fs| ensures Outside(fs[k], fs[l]) {
        var g := rest[l - 1];
        assert fs[l] == g;
        if k > 0 {
          assert fs[k] == rest[k - 1];
        } else {
          assert fs[k] == f;
        }
      }
    }
  }

  // ---------------------------------------------------------------------------------------
  // When a failed save has written rows, whatever the hooks do

  /** The chain reaches the insert and the database accepts it. */
  ghost predicate Inserts<F, N, S, T>(kit: Kit<F, N, S, T>, bs: seq<Builder<F>>, fs: seq<Frame>, st: State<F, N, S, T>)
    requires FramesOk(bs, fs) && Fits(bs, st)
  {
    var d := Descend(kit, bs, fs, st);
    d.halt.None? && AllFilled(d.st.specs) && kit.batch(st.table, Values(d.st.specs)).Ok?
  }

  /** The table with the rows of an accepted insert. */
  ghost function TableAfter<F, N, S, T>(kit: Kit<F, N, S, T>, bs: seq<Builder<F>>, fs: seq<Frame>,
        st: State<F, N, S, T>): T
    requires FramesOk(bs, fs) && Fits(bs, st)
  {
    if Inserts(kit, bs, fs, st) then kit.batch(st.table, Values(Descend(kit, bs, fs, st).st.specs)).value else st.table
  }

  /** What the hooks make of the insert's success, from the innermost to the outermost. */
  ghost function Verdict<F, N, S, T>(kit: Kit<F, N, S, T>, bs: seq<Builder<F>>, fs: seq<Frame>, st: State<F, N, S, T>)
    : Outcome
    requires FramesOk(bs, fs) && Fits(bs, st)
  {
    Ascend(kit, bs, fs, Done, Insert(kit, Descend(kit, bs, fs, st).st).1).0
  }

  lemma LoopWrites<F, N, S, T>(kit: Kit<F, N, S, T>, bs: seq<Builder<F>>, fs: seq<Frame>, st: State<F, N, S, T>)
    requires FramesOk(bs, fs) && Fits(bs, st)
    ensures var (o, out) := PlainLoop(kit, bs, fs, st);
            && out.table == TableAfter(kit, bs, fs, st)
            && (Inserts(kit, bs, fs, st) ==> o == Verdict(kit, bs, fs, st))
  {
    var d := Descend(kit, bs, fs, st);
    DescendKeepsTable(kit, bs, fs, st);
    var (o, st1) := if d.halt.Some? then (d.halt.value, d.st) else Insert(kit, d.st);
    AscendKeepsRows(kit, bs, fs[..d.passed], o, st1);
    if d.halt.None? {
      assert fs[..d.passed] == fs;
    }
  }

  /** Rows are written exactly when the chain reaches the insert and the database accepts it; so a save fails with
      its rows written exactly when, besides, the hooks turn the success of the insert into an error. */
  lemma FailedWithRowsIff<F, N, S, T>(kit: Kit<F, N, S, T>, bs: seq<Builder<F>>, muts: map<Builder<F>, Mutation<F>>,
        table: T)
    requires forall k :: 0 <= k < |bs| ==> bs[k] in muts
    ensures var st, fs := Start(kit, bs, muts, table, []), Rest(bs, 0, 0);
            var (o, out) := PlainLoop(kit, bs, fs, st);
            && out.table == TableAfter(kit, bs, fs, st)
            && (o.Failed? && out.table != table <==>
                Inserts(kit, bs, fs, st) && TableAfter(kit, bs, fs, st) != table && Verdict(kit, bs, fs, st).Failed?)
  {
    LoopWrites(kit, bs, Rest(bs, 0, 0), Start(kit, bs, muts, table, []));
  }

  /** A hook that never turns the success of the call it made into an error. It may do anything else: return a
      success without the call, or turn an error into a success. */
  ghost predicate KeepsSuccess<F(!new)>(hook: Hook<F>) { forall x :: hook.after(x, Done).1.Done? }

  ghost predicate AllKeepSuccess<F(!new)>(bs: seq<Builder<F>>) {
    forall i, h :: 0 <= i < |bs| && 0 <= h < |bs[i].hooks| ==> KeepsSuccess(bs[i].hooks[h])
  }

  lemma {:induction false} AscendKeepsSuccess<F(!new), N, S, T>(kit: Kit<F, N, S, T>, bs: seq<Builder<F>>,
        fs: seq<Frame>, o: Outcome, st: State<F, N, S, T>)
    requires FramesOk(bs, fs) && Fits(bs, st) && AllKeepSuccess(bs)
    ensures var (o', out) := Ascend(kit, bs, fs, o, st);
            o'.Failed? ==> o.Failed? && forall b :: b in st.muts ==> out.muts[b].done == st.muts[b].done
    decreases |fs|
  {
    if fs != [] {
      var f := fs[|fs| - 1];
      if f.HookFrame? {
        assert KeepsSuccess(bs[f.i].hooks[f.h]);
      }
      var (o1, st1) := StepUp(kit, bs, f, o, st);
      AscendKeepsSuccess(kit, bs, fs[..|fs| - 1], o1, st1);
    }
  }

  lemma LoopLeavesNothing<F(!new), N, S, T>(kit: Kit<F, N, S, T>, bs: seq<Builder<F>>, fs: seq<Frame>,
        st: State<F, N, S, T>)
    requires FramesOk(bs, fs) && Fits(bs, st) && AllKeepSuccess(bs)
    ensures var (o, out) := PlainLoop(kit, bs, fs, st); o.Failed? ==> NothingHappened(st, out)
  {
    var d := Descend(kit, bs, fs, st);
    DescendKeepsTable(kit, bs, fs, st);
    var (o, st1) := if d.halt.Some? then (d.halt.value, d.st) else Insert(kit, d.st);
    AscendKeepsRows(kit, bs, fs[..d.passed], o, st1);
    AscendKeepsSuccess(kit, bs, fs[..d.passed], o, st1);
  }

  /** While every hook lets a success pass, a failed save leaves nothing behind: no row, no marked mutation. */
  lemma FailureLeavesNothing<F(!new), N, S, T>(kit: Kit<F, N, S, T>, bs: seq<Builder<F>>, muts: map<Builder<F>,
        Mutation<F>>, table: T)
    requires AllKeepSuccess(bs) && forall k :: 0 <= k < |bs| ==> bs[k] in muts
    ensures var st := Start(kit, bs, muts, table, []);
            var (o, out) := PlainLoop(kit, bs, Rest(bs, 0, 0), st);
            o.Failed? ==> NothingHappened(st, out)
  {
    LoopLeavesNothing(kit, bs, Rest(bs, 0, 0), Start(kit, bs, muts, table, []));
  }

  // ---------------------------------------------------------------------------------------
  // One hook that fails after success is enough to lose all or nothing

  /** A probe: checks pass and the insert succeeds, adding one row. */
  function Probe<F>(): Kit<F, F, F, nat> {
    Kit((x: F, k: nat) => x, (x: F) => None, (x: F) => x, (x: F) => x, (x: F, n: F) => x,
        (t: nat, rows: seq<F>) => AddRows(t, rows))
  }

  function AddRows<F>(t: nat, rows: seq<F>): Result<nat, string> { Ok(t + |rows|) }

  /** With one builder under this hook, a failed save writes no row. */
  ghost predicate FailureWritesNothing<F(!new)>(b: Builder<F>, x: F) {
    var (o, out) := PlainLoop(Probe<F>(), [b], Rest([b], 0, 0), Start(Probe<F>(), [b], map[b := Mutation(x, false)], 0, []));
    o.Failed? ==> out.table == 0
  }

  /** Alone around an insert that succeeds, a hook must keep its success: otherwise some save fails with its row
      written. */
  lemma LoneHookKeepsIff<F(!new)>(b: Builder<F>, hook: Hook<F>)
    requires b.hooks == [hook]
    ensures (forall x :: FailureWritesNothing(b, x)) <==>
            (forall x :: hook.before(x).Proceed? ==> hook.after(hook.before(x).fields, Done).1.Done?)
  {
    forall x ensures FailureWritesNothing(b, x) <==>
                     (hook.before(x).Proceed? ==> hook.after(hook.before(x).fields, Done).1.Done?)
    {
      OneHookRun(b, hook, x);
    }
  }

  lemma OneHookRun<F(!new)>(b: Builder<F>, hook: Hook<F>, x: F)
    requires b.hooks == [hook]
    ensures var kit := Probe<F>();
            var (o, out) := PlainLoop(kit, [b], Rest([b], 0, 0), Start(kit, [b], map[b := Mutation(x, false)], 0, []));
            match hook.before(x)
            case Stop(stopped) => o == stopped && out.table == 0
            case Proceed(y) => out.table == 1 && o == hook.after(y, Done).1
  {
    var kit, bs := Probe<F>(), [b];
    var st := Start(kit, bs, map[b := Mutation(x, false)], 0, []);
    assert WithDefaults(kit, bs, 0, map[b := Mutation(x, false)])[b] == Mutation(x, false);
    assert st.muts[b].fields == x;
    var f0, f1 := HookFrame(0, 0), CoreFrame(0);
    assert Rest(bs, 1, 0) == [];
    assert Rest(bs, 0, 1) == [f1] + [];
    assert Rest(bs, 0, 0) == [f0] + [f1];
    LoopAround(kit, bs, f0, [f1], st);
    var (halt, st1) := StepDown(kit, bs, f0, st);
    if halt.None? {
      LoopAround(kit, bs, f1, [], st1);
      var (halt1, st2) := StepDown(kit, bs, f1, st1);
      assert AllFilled(st2.specs);
      assert Descend(kit, bs, [], st2).st == st2;
    }
  }

  // ---------------------------------------------------------------------------------------
  // The code: recursive mutators over shared slots

  class CreateBulk<F(!new), N, S, T> {
    const kit: Kit<F, N, S, T>
    const builders: seq<Builder<F>>
    const err: Option<string>
    var table: T
    ghost var trace: seq<Event>

    constructor (kit: Kit<F, N, S, T>, builders: seq<Builder<F>>, err: Option<string>, table: T)
      ensures this.kit == kit && this.builders == builders && this.err == err
      ensures this.table == table && trace == []
    {
      this.kit, this.builders, this.err, this.table := kit, builders, err, table;
      trace := [];
    }

    ghost function Cells(): set<Builder<F>> { set b | b in builders }

    ghost function Muts(): map<Builder<F>, Mutation<F>>
      reads Cells()
    {
      map b: Builder<F> | b in Cells() :: b.mutation
    }

    ghost function View(nodes: array<Option<N>>, specs: array<Option<S>>): State<F, N, S, T>
      reads this, Cells(), nodes, specs
    {
      State(Muts(), nodes[..], specs[..], table, trace)
    }

    /** The two slot arrays, one slot a builder. */
    ghost predicate Slots(nodes: array<Option<N>>, specs: array<Option<S>>) {
      nodes.Length == specs.Length == |builders| && nodes as object != specs as object
    }

    /** The part of a hook, or of a builder's mutator, that precedes the call to the next one. */
    method BeforeNext(i: nat, h: nat, nodes: array<Option<N>>, specs: array<Option<S>>) returns (halt: Option<Outcome>)
      requires i < |builders| && h <= |builders[i].hooks|
      requires Slots(nodes, specs)
      modifies this`trace, builders[i], nodes, specs
      ensures (halt, View(nodes, specs)) == StepDown(kit, builders, FrameFrom(builders, i, h), old(View(nodes, specs)))
    {
      var builder := builders[i];
      trace := trace + [Enter(FrameFrom(builders, i, h))];
      if h < |builder.hooks| {
        match builder.hooks[h].before(builder.mutation.fields) {
          case Stop(o) => return Some(o);
          case Proceed(fields) => builder.mutation := builder.mutation.(fields := fields);
        }
      } else {
        match kit.check(builder.mutation.fields) {
          case Some(e) => return Some(Failed(e));
          case None =>
            nodes[i] := Some(kit.node(builder.mutation.fields));
            specs[i] := Some(kit.spec(builder.mutation.fields));
        }
      }
      assert Muts() == old(Muts())[builder := builder.mutation];
      return None;
    }

    /** The part that follows it. */
    method AfterNext(i: nat, h: nat, inner: Outcome, nodes: array<Option<N>>, specs: array<Option<S>>)
      returns (o: Outcome)
      requires i < |builders| && h <= |builders[i].hooks|
      requires Slots(nodes, specs)
      modifies this`trace, builders[i]
      ensures (o, View(nodes, specs)) == StepUp(kit, builders, FrameFrom(builders, i, h), inner, old(View(nodes, specs)))
    {
      var builder := builders[i];
      trace := trace + [Leave(FrameFrom(builders, i, h))];
      o := inner;
      if h < |builder.hooks| {
        var after := builder.hooks[h].after(builder.mutation.fields, inner);
        builder.mutation := builder.mutation.(fields := after.0);
        o := after.1;
      } else if inner.Done? && nodes[i].Some? {
        builder.mutation := Mutation(kit.withId(builder.mutation.fields, nodes[i].value), true);
      }
      assert Muts() == old(Muts())[builder := builder.mutation];
    }

    /** Hook h of builder i, or its mutator once the hooks are passed: what it returns and leaves
        behind is what the plain loop over the remaining frames gives. */
    method Mutate(i: nat, h: nat, nodes: array<Option<N>>, specs: array<Option<S>>) returns (o: Outcome)
      requires i < |builders| && h <= |builders[i].hooks|
      requires Slots(nodes, specs)
      modifies this`table, this`trace, Cells(), nodes, specs
      ensures (o, View(nodes, specs)) == PlainLoop(kit, builders, Rest(builders, i, h), old(View(nodes, specs)))
      decreases |builders| - i, |builders[i].hooks| - h, 1
    {
      ghost var rest := if h < |builders[i].hooks| then Rest(builders, i, h + 1) else Rest(builders, i + 1, 0);
      assert Rest(builders, i, h) == [FrameFrom(builders, i, h)] + rest;
      LoopAround(kit, builders, FrameFrom(builders, i, h), rest, View(nodes, specs));
      var halt := BeforeNext(i, h, nodes, specs);
      if halt.Some? {
        trace := trace + [Leave(FrameFrom(builders, i, h))];
        return halt.value;
      }
      var inner := Next(i, h, nodes, specs);
      o := AfterNext(i, h, inner, nodes, specs);
    }

    /** The call to the next mutator, or the insert. */
    method Next(i: nat, h: nat, nodes: array<Option<N>>, specs: array<Option<S>>) returns (o: Outcome)
      requires i < |builders| && h <= |builders[i].hooks|
      requires Slots(nodes, specs)
      modifies this`table, this`trace, Cells(), nodes, specs
      ensures var rest := if h < |builders[i].hooks| then Rest(builders, i, h + 1) else Rest(builders, i + 1, 0);
        (o, View(nodes, specs)) == PlainLoop(kit, builders, rest, old(View(nodes, specs)))
      decreases |builders| - i, |builders[i].hooks| - h, 0
    {
      if h < |builders[i].hooks| {
        o := Mutate(i, h + 1, nodes, specs);
      } else if i < |builders| - 1 {
        o := Mutate(i + 1, 0, nodes, specs);
      } else {
        o := BatchCreate(nodes, specs);
      }
    }

    /** The one insert at the end of the chain. */
    method BatchCreate(nodes: array<Option<N>>, specs: array<Option<S>>) returns (o: Outcome)
      modifies this`table, this`trace
      ensures (o, View(nodes, specs)) == Insert(kit, old(View(nodes, specs)))
    {
      if !AllFilled(specs[..]) {
        return Failed("nil row");
      }
      trace := trace + [Batch];
      match kit.batch(table, Values(specs[..])) {
        case Ok(t) => table := t; o := Done;
        case Err(e) => o := Failed(e);
      }
    }

    /** builder.defaults(). */
    method SetDefault(i: nat)
      requires i < |builders|
      modifies builders[i]
      ensures Muts() == old(Muts())[builders[i] :=
        Mutation(kit.defaults(old(builders[i].mutation).fields, i), old(builders[i].mutation).done)]
    {
      builders[i].mutation := builders[i].mutation.(fields := kit.defaults(builders[i].mutation.fields, i));
      assert Muts() == old(Muts())[builders[i] := builders[i].mutation];
    }

    method SetDefaults()
      modifies Cells()
      ensures Muts() == WithDefaults(kit, builders, |builders|, old(Muts()))
      ensures NoDup(builders) ==> forall k :: 0 <= k < |builders| ==>
        builders[k].mutation ==
        Mutation(kit.defaults(old(builders[k].mutation).fields, k), old(builders[k].mutation).done)
    {
      for i := 0 to |builders|
        invariant Muts() == WithDefaults(kit, builders, i, old(Muts()))
      {
        SetDefault(i);
      }
      if NoDup(builders) {
        forall k | 0 <= k < |builders|
          ensures Muts()[builders[k]] == Mutation(kit.defaults(old(Muts())[builders[k]].fields, k), old(Muts())[builders[k]].done)
        {
          DefaultsGiven(kit, builders, |builders|, old(Muts()));
        }
      }
    }

    /** Sets the defaults of all builders and runs the chain once. */
    method Run() returns (result: Result<seq<Option<N>>, string>)
      requires trace == [] && builders != []
      modifies this`table, this`trace, Cells()
      ensures var st := Start(kit, builders, old(Muts()), old(table), []);
              var (o, out) := PlainLoop(kit, builders, Rest(builders, 0, 0), st);
              && Muts() == out.muts && table == out.table && trace == out.trace && result == ResultOf(o, out)
    {
      var specs := new Option<S>[|builders|](_ => None);
      var nodes := new Option<N>[|builders|](_ => None);
      SetDefaults();
      assert View(nodes, specs) == Start(kit, builders, old(Muts()), old(table), []);
      var o := Mutate(0, 0, nodes, specs);
      if o.Failed? {
        return Err(o.error);
      }
      return Ok(nodes[..]);
    }

    /** The mutations of the builders, in order. */
    ghost function Mutations(): (r: seq<Mutation<F>>)
      reads Cells()
      ensures |r| == |builders|
    {
      MutationsOf(builders, Muts())
    }

    /** The save. With any hooks it is the plain loop over all frames and one insert; without hooks, distinct builders
        are saved by their fields with their own defaults. */
    method Save() returns (result: Result<seq<Option<N>>, string>)
      requires trace == []
      modifies this`table, this`trace, Cells()
      ensures err.Some? ==> result == Err(err.value) && Muts() == old(Muts()) && table == old(table)
      ensures err.None? && builders == [] ==> result == Ok([]) && table == old(table)
      ensures err.None? && builders != [] ==>
                var st := Start(kit, builders, old(Muts()), old(table), []);
                var (o, out) := PlainLoop(kit, builders, Rest(builders, 0, 0), st);
                && Muts() == out.muts && table == out.table && trace == out.trace && result == ResultOf(o, out)
      ensures err.None? && NoDup(builders) && Hookless(builders) ==>
                forall xs | |xs| == |builders| &&
                  (forall k :: 0 <= k < |xs| ==> xs[k] == kit.defaults(old(Mutations())[k].fields, k)) ::
                  SavedPlainly(kit, xs, old(Mutations()), old(table), Mutations(), table, result)
    {
      if err.Some? {
        return Err(err.value);
      }
      if |builders| == 0 {
        return Ok([]);
      }
      result := Run();
      if NoDup(builders) && Hookless(builders) {
        HooklessSave(kit, builders, old(Muts()), old(table));
        forall xs | |xs| == |builders| &&
          forall k :: 0 <= k < |xs| ==> xs[k] == kit.defaults(old(Mutations())[k].fields, k)
          ensures xs == Defaulted(kit, builders, old(Muts()))
        {
        }
      }
    }
  }
}
