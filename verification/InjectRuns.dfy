/**
 The life of a dependency-injection graph: a list of registrations, each of which may fail, and then shutdown. What is
 known of the whole is stated over the history of the graph and the structs as they were given.
 */
module InjectRuns {
  import opened Wrappers
  import opened OrderedMap
  import opened Inject
  import opened InjectCode

  datatype Registration = Registration(name: string, t: Type, value: Value, singleton: bool, noFill: bool)

  ghost function KeysFor(schema: Schema, rank: seq<nat>, r: Registration): set<string>
    requires Ranked(schema, rank)
  {
    Under(schema, rank, r.t) + OwnKeys(schema, NameOf(schema, r.name, r.t), r.t, r.singleton)
  }

  ghost function AllKeys(schema: Schema, rank: seq<nat>, regs: seq<Registration>): set<string>
    requires Ranked(schema, rank)
  {
    if regs == [] then {} else AllKeys(schema, rank, regs[..|regs| - 1]) + KeysFor(schema, rank, regs[|regs| - 1])
  }

  /** No object's keys are among its own dependencies', nor the type name of a singleton among those before it. */
  ghost predicate KeysApart(schema: Schema, rank: seq<nat>, regs: seq<Registration>)
    requires Ranked(schema, rank)
  {
    regs == [] ||
    (var front, r := regs[..|regs| - 1], regs[|regs| - 1];
     var name := NameOf(schema, r.name, r.t);
     && KeysApart(schema, rank, front)
     && OwnKeys(schema, name, r.t, r.singleton) !! Under(schema, rank, r.t)
     && (r.singleton && r.t.Pointer? ==> schema.typeName(r.t) == name || schema.typeName(r.t) !in AllKeys(schema, rank, front)))
  }

  /** Only keys of the registrations so far are there, and if those are apart, no entry was replaced. */
  ghost predicate Calm(schema: Schema, rank: seq<nat>, regs: seq<Registration>, view: View, h: History)
    requires Ranked(schema, rank)
  {
    && (forall k <- KeysOf(view) :: k in AllKeys(schema, rank, regs))
    && (Tidy(schema, rank) && KeysApart(schema, rank, regs) ==> !h.clashed)
  }

  lemma CalmOn(schema: Schema, rank: seq<nat>, regs: seq<Registration>, i: nat, view: View, h: History, view': View,
               h': History, ok: bool)
    requires Ranked(schema, rank) && i < |regs| && Calm(schema, rank, regs[..i], view, h)
    requires var r := regs[i];
             var name, under := NameOf(schema, r.name, r.t), Under(schema, rank, r.t);
             if ok then Tame(view, h, view', h', under + OwnKeys(schema, name, r.t, r.singleton),
                             Tidy(schema, rank) && Unclaimed(schema, view, under, name, r.t, r.singleton))
             else Tame(view, h, view', h', under, Tidy(schema, rank))
    ensures Calm(schema, rank, regs[..i + 1], view', h')
  {
    hide Tidy, Under, Look, KeysOf;
    assert regs[..i + 1][..i] == regs[..i] && regs[..i + 1][i] == regs[i];
    AbsentLook(view, schema.typeName(regs[i].t));
  }

  /** A registration that only its own name or a failing `Start` can stop. */
  ghost predicate Certain(schema: Schema, r: Registration) {
    (r.t.Pointer? || !r.value.Nil?) && Welcome(schema, NameOf(schema, r.name, r.t), r.t, r.singleton)
  }

  /** How one registration turns out. */
  ghost predicate Fated(schema: Schema, view: View, view': View, r: Registration, result: Result<Value, Error>) {
    match result
    case Ok(_) => GoesWell(schema, Sturdy(schema) && Certain(schema, r), view, view', None)
    case Err(NameEmpty) => r.name == "" && !r.t.Pointer? && view' == view
    case Err(AlreadyRegistered) => Look(view, NameOf(schema, r.name, r.t)) != None && view' == view
    case Err(e) => GoesWell(schema, Sturdy(schema) && (r.t.Pointer? || !r.value.Nil?), view, view', Some(e))
  }

  /** It succeeded, or its name was missing or taken. */
  ghost predicate Expected(schema: Schema, rank: seq<nat>, regs: seq<Registration>, r: Registration, result: Result<Value, Error>)
    requires Ranked(schema, rank)
  {
    || result.Ok?
    || (result == Err(NameEmpty) && r.name == "" && !r.t.Pointer?)
    || (result == Err(AlreadyRegistered) && NameOf(schema, r.name, r.t) in AllKeys(schema, rank, regs))
  }

  /** In a sturdy schema in which nothing fails to start, every registration turns out as expected. */
  ghost predicate Smooth(schema: Schema, rank: seq<nat>, regs: seq<Registration>, view: View, results: seq<Result<Value, Error>>)
    requires Ranked(schema, rank)
  {
    && |results| == |regs|
    && (Sturdy(schema) && !CanFail(schema) && (forall r <- regs :: Certain(schema, r)) ==>
          Fits(schema, view) && forall j :: 0 <= j < |regs| ==> Expected(schema, rank, regs[..j], regs[j], results[j]))
  }

  lemma SmoothOn(schema: Schema, rank: seq<nat>, regs: seq<Registration>, i: nat, view: View, h: History, view': View,
                 results: seq<Result<Value, Error>>, result: Result<Value, Error>)
    requires Ranked(schema, rank) && i < |regs| && Calm(schema, rank, regs[..i], view, h)
    requires Smooth(schema, rank, regs[..i], view, results) && Fated(schema, view, view', regs[i], result)
    ensures Smooth(schema, rank, regs[..i + 1], view', results + [result])
  {
    hide Sturdy, CanFail, Fits, Welcome, AllKeys, Look, KeysOf, Tidy, KeysApart;
    var now, all := regs[..i + 1], results + [result];
    if Sturdy(schema) && !CanFail(schema) && forall r <- now :: Certain(schema, r) {
      assert forall r <- regs[..i] :: r in now;
      assert now[i] in now;
      AbsentLook(view, NameOf(schema, regs[i].name, regs[i].t));
      assert Expected(schema, rank, regs[..i], regs[i], result);
      forall j | 0 <= j < i + 1
        ensures Expected(schema, rank, now[..j], now[j], all[j])
      {
        assert now[..j] == regs[..i][..j] == regs[..j];
        if j < i {
          assert regs[..i][j] == regs[j];
        }
      }
    }
  }

  /**
   A registered object is among those that started, `since` and before `upto` others: it has the value that was
   returned, and of the struct it was given the fields `start[p]` were kept; if the struct was never given before, they
   are the ones that were found.
   */
  ghost predicate Started(schema: Schema, h: History, start: map<Instance, seq<Value>>, r: Registration, first: bool, v: Value,
                          since: nat, upto: nat)
  {
    exists e <- h.order :: StartedBy(schema, h, e, r, v, since, upto) && Begun(start, r.value, first, h.births[e].before)
  }

  /** The newest object when its registration was over, before which there were `since`. */
  ghost predicate StartedBy(schema: Schema, h: History, e: Entry, r: Registration, v: Value, since: nat, upto: nat) {
    && e.name == NameOf(schema, r.name, r.t) && e.t == r.t && e.id + 1 == upto && e in h.births
    && h.births[e].value == v && IsBirth(h.births[e], r.value, r.singleton, r.noFill, since)
  }

  ghost predicate Begun(start: map<Instance, seq<Value>>, given: Value, first: bool, before: seq<Value>) {
    given.Ref? ==>
      given.p in start && Lasting(start[given.p], before) && (first ==> before == start[given.p])
  }

  /** How many objects there were before each registration and after the last: what it looked up, it looked up since. */
  ghost predicate Counted(h: History, counts: seq<nat>) {
    && counts != [] && counts[0] == 0 && counts[|counts| - 1] == |h.order|
    && (forall j :: 0 <= j < |counts| - 1 ==> counts[j] <= counts[j + 1])
    && forall j, i :: 0 <= j < |counts| - 1 && counts[j] <= i < counts[j + 1] && i < |h.order| ==> LooksSince(h, i, counts[j])
  }

  ghost predicate LooksSince(h: History, i: nat, since: nat)
    requires i < |h.order|
  {
    h.order[i] in h.births && h.births[h.order[i]].began >= since
  }

  ghost predicate AllStarted(schema: Schema, h: History, start: map<Instance, seq<Value>>, regs: seq<Registration>,
                             results: seq<Result<Value, Error>>, counts: seq<nat>)
  {
    && |results| == |regs| && |counts| == |regs| + 1 && Counted(h, counts)
    && (forall j :: 0 <= j < |regs| && results[j].Ok? ==>
          Started(schema, h, start, regs[j], Target(regs[j].value) !! Targets(regs[..j]), results[j].value, counts[j], counts[j + 1]))
    && forall e <- h.order :: e in h.births && (h.births[e].given == Nil || ByOne(schema, h, e, regs, results, counts))
  }

  ghost predicate ByOne(schema: Schema, h: History, e: Entry, regs: seq<Registration>, results: seq<Result<Value, Error>>,
                        counts: seq<nat>)
    requires |results| == |regs| && |counts| == |regs| + 1
  {
    exists j :: 0 <= j < |regs| && results[j].Ok? && StartedBy(schema, h, e, regs[j], results[j].value, counts[j], counts[j + 1])
  }

  lemma CountedOn(view: View, h: History, view': View, h': History, counts: seq<nat>, ok: bool, e: Entry)
    requires Counted(h, counts) && Grew(view, h, view', h') && InOrder(h'.order)
    requires if ok then NestedBut(h, h', e) && e in h'.births && h'.births[e].began == |h.order| else Nested(h, h')
    ensures Counted(h', counts + [|h'.order|])
  {
    var all := counts + [|h'.order|];
    forall j, i | 0 <= j < |all| - 1 && all[j] <= i < all[j + 1] && i < |h'.order|
      ensures LooksSince(h', i, all[j])
    {
      if i < |h.order| {
        assert h.order[i] == h'.order[i];
        if j < |counts| - 1 {
          assert LooksSince(h, i, counts[j]);
        }
      } else {
        IsNew(h, h', i);
        assert h'.order[i] !in h.order;
        LaterIsLast(h, counts, j, i);
      }
    }
  }

  lemma IsNew(h: History, h': History, i: nat)
    requires h.order <= h'.order && InOrder(h'.order) && |h.order| <= i < |h'.order|
    ensures h'.order[i] !in h.order
  {
    forall k | 0 <= k < |h.order|
      ensures h.order[k] != h'.order[i]
    {
      assert h.order[k] == h'.order[k];
    }
  }

  lemma {:induction false} LaterIsLast(h: History, counts: seq<nat>, j: nat, i: nat)
    requires Counted(h, counts) && j < |counts| && i >= |h.order| && (j < |counts| - 1 ==> i < counts[j + 1])
    ensures j == |counts| - 1
  {
    if j < |counts| - 1 {
      CountsGrow(counts, j + 1, |counts| - 1);
    }
  }

  lemma {:induction false} CountsGrow(counts: seq<nat>, i: nat, j: nat)
    requires i <= j < |counts| && forall k :: 0 <= k < |counts| - 1 ==> counts[k] <= counts[k + 1]
    ensures counts[i] <= counts[j]
  {
    if i < j {
      CountsGrow(counts, i, j - 1);
      assert counts[j - 1] <= counts[j - 1 + 1];
    }
  }

  lemma ByOneOn(schema: Schema, view: View, h: History, view': View, h': History, regs: seq<Registration>, i: nat,
                results: seq<Result<Value, Error>>, result: Result<Value, Error>, counts: seq<nat>, e: Entry)
    requires i < |regs| && |results| == i && |counts| == i + 1 && e in h.order && Grew(view, h, view', h')
    requires ByOne(schema, h, e, regs[..i], results, counts)
    ensures ByOne(schema, h', e, regs[..i + 1], results + [result], counts + [|h'.order|])
  {
    var j :| 0 <= j < i && results[j].Ok? && StartedBy(schema, h, e, regs[..i][j], results[j].value, counts[j], counts[j + 1]);
    var all := counts + [|h'.order|];
    assert regs[..i + 1][j] == regs[..i][j] && (results + [result])[j] == results[j];
    assert all[j] == counts[j] && all[j + 1] == counts[j + 1];
    assert StartedBy(schema, h', e, regs[..i + 1][j], (results + [result])[j].value, all[j], all[j + 1]);
  }

  lemma AccountedOn(schema: Schema, view: View, h: History, view': View, h': History, regs: seq<Registration>, i: nat,
                    results: seq<Result<Value, Error>>, result: Result<Value, Error>, counts: seq<nat>, e: Entry)
    requires i < |regs| && |results| == i && |counts| == i + 1 && Grew(view, h, view', h')
    requires forall o <- h.order :: o in h.births && (h.births[o].given == Nil || ByOne(schema, h, o, regs[..i], results, counts))
    requires if result.Ok? then NestedBut(h, h', e) && StartedBy(schema, h', e, regs[i], result.value, counts[i], |h'.order|)
             else Nested(h, h')
    ensures forall o <- h'.order ::
              o in h'.births
              && (h'.births[o].given == Nil || ByOne(schema, h', o, regs[..i + 1], results + [result], counts + [|h'.order|]))
  {
    hide StartedBy, ByOne;
    forall o <- h'.order
      ensures o in h'.births
              && (h'.births[o].given == Nil || ByOne(schema, h', o, regs[..i + 1], results + [result], counts + [|h'.order|]))
    {
      if o in h.order {
        if h.births[o].given != Nil {
          ByOneOn(schema, view, h, view', h', regs, i, results, result, counts, o);
        }
      } else if result.Ok? && o == e {
        ByLast(schema, h', o, regs, i, results, result, counts);
      }
    }
  }

  lemma ByLast(schema: Schema, h: History, e: Entry, regs: seq<Registration>, i: nat, results: seq<Result<Value, Error>>,
               result: Result<Value, Error>, counts: seq<nat>)
    requires i < |regs| && |results| == i && |counts| == i + 1 && result.Ok?
    requires StartedBy(schema, h, e, regs[i], result.value, counts[i], |h.order|)
    ensures e in h.births && ByOne(schema, h, e, regs[..i + 1], results + [result], counts + [|h.order|])
  {
    assert regs[..i + 1][i] == regs[i] && (results + [result])[i] == result;
    var all := counts + [|h.order|];
    assert all[i] == counts[i] && all[i + 1] == |h.order|;
    assert StartedBy(schema, h, e, regs[..i + 1][i], (results + [result])[i].value, all[i], all[i + 1]);
  }

  lemma StartedOn(schema: Schema, view: View, h: History, view': View, h': History, start: map<Instance, seq<Value>>,
                  regs: seq<Registration>, i: nat, results: seq<Result<Value, Error>>, result: Result<Value, Error>,
                  counts: seq<nat>, e: Entry, b: Birth)
    requires i < |regs| && AllStarted(schema, h, start, regs[..i], results, counts) && Grew(view, h, view', h') && InOrder(h'.order)
    requires result.Ok? ==>
               && Entered(schema, h, view', h', NameOf(schema, regs[i].name, regs[i].t), regs[i].t, b, e)
               && b.value == result.value && IsBirth(b, regs[i].value, regs[i].singleton, regs[i].noFill, |h.order|)
               && Begun(start, b.given, Target(regs[i].value) !! Targets(regs[..i]), b.before)
    requires result.Err? ==> Nested(h, h')
    ensures AllStarted(schema, h', start, regs[..i + 1], results + [result], counts + [|h'.order|])
  {
    hide Look, Built, Begun, Targets, Target, NestedBut, Nested, ByOne, Counted;
    LastCount(h, counts);
    CountedOn(view, h, view', h', counts, result.Ok?, e);
    AccountedOn(schema, view, h, view', h', regs, i, results, result, counts, e);
    forall j | 0 <= j < i && results[j].Ok?
      ensures Started(schema, h', start, regs[j], Target(regs[j].value) !! Targets(regs[..j]), results[j].value, counts[j], counts[j + 1])
    {
      assert regs[..i][j] == regs[j] && regs[..i][..j] == regs[..j];
      assert Started(schema, h, start, regs[j], Target(regs[j].value) !! Targets(regs[..j]), results[j].value, counts[j], counts[j + 1]);
    }
    assert regs[..i + 1][..i] == regs[..i];
    forall j | 0 <= j <= i
      ensures regs[..i + 1][j] == regs[j] && regs[..i + 1][..j] == regs[..j]
    {
    }
    var all := counts + [|h'.order|];
    assert forall j :: 0 <= j <= i ==> all[j] == counts[j];
    if result.Ok? {
      assert StartedBy(schema, h', e, regs[i], result.value, all[i], all[i + 1]);
      assert Started(schema, h', start, regs[i], Target(regs[i].value) !! Targets(regs[..i]), result.value, all[i], all[i + 1]);
    }
  }

  lemma LastCount(h: History, counts: seq<nat>)
    requires Counted(h, counts)
    ensures counts != [] && counts[|counts| - 1] == |h.order|
  {
  }

  ghost function Targets(regs: seq<Registration>): set<Instance> {
    set r | r in regs && r.value.Ref? :: r.value.p
  }

  /** The structs given more than once. */
  ghost function Repeated(regs: seq<Registration>): set<Instance> {
    if regs == [] then {}
    else
      var front, r := regs[..|regs| - 1], regs[|regs| - 1];
      Repeated(front) + (if Target(r.value) <= Targets(front) then Target(r.value) else {})
  }

  ghost function Fields(ps: set<Instance>): map<Instance, seq<Value>>
    reads ps
  {
    map p | p in ps :: p.fields
  }

  ghost predicate Sane(schema: Schema, p: Instance)
    reads p
  {
    p.stype < |schema.structs| && WellTyped(schema, schema.structs[p.stype], p.fields)
  }

  /** The structs given to a run of registrations; one may be given twice. */
  ghost predicate AllProper(schema: Schema, regs: seq<Registration>)
    reads Targets(regs)
  {
    (forall r <- regs :: Typed(schema, r.t, r.value)) && forall p <- Targets(regs) :: Sane(schema, p)
  }

  lemma GivenIsProper(schema: Schema, regs: seq<Registration>, r: Registration)
    requires r in regs && AllProper(schema, regs)
    ensures Proper(schema, r.t, r.value) && Target(r.value) <= Targets(regs)
  {
    if r.value.Ref? {
      assert r.value.p in Targets(regs);
      assert Sane(schema, r.value.p);
    }
  }

  lemma ProperIsSane(schema: Schema, t: Type, v: Value)
    requires Proper(schema, t, v)
    ensures forall p <- Target(v) :: Sane(schema, p)
  {
  }

  // ----- what becomes of the structs

  /** The structs the objects that started point to. */
  ghost function StructsOf(h: History): set<Instance> {
    set e | e in h.order && e in h.births && h.births[e].value.Ref? :: h.births[e].value.p
  }

  /** Of the structs given to the registrations, those not given yet are as they were, the others have lost nothing. */
  ghost predicate Spared(start: map<Instance, seq<Value>>, now: map<Instance, seq<Value>>, regs: seq<Registration>, i: nat)
    requires i <= |regs|
  {
    forall p <- Targets(regs) ::
      p in start && p in now && Lasting(start[p], now[p]) && (p !in Targets(regs[..i]) ==> now[p] == start[p])
  }

  /** The objects' structs have lost nothing since the objects started; only those given again have gained anything. */
  ghost predicate Standing(h: History, now: map<Instance, seq<Value>>, repeated: set<Instance>) {
    forall e <- h.order :: e in h.births && h.births[e].value.Ref? ==>
      var p := h.births[e].value.p;
      && p in now && Lasting(h.births[e].after, now[p])
      && (p !in repeated ==> now[p] == h.births[e].after)
  }

  /** A registration that was given `given` fills in fields of that struct and of none other. */
  ghost predicate Touched(was: map<Instance, seq<Value>>, now: map<Instance, seq<Value>>, given: set<Instance>) {
    forall p <- was :: p in now && if p in given then Lasting(was[p], now[p]) else now[p] == was[p]
  }

  /** The objects it started have structs of their own, as they were when they started, or that one. */
  ghost predicate Added(h: History, h': History, now: map<Instance, seq<Value>>, all: set<Instance>, given: set<Instance>) {
    forall e <- h'.order :: e !in h.order && e in h'.births && h'.births[e].value.Ref? ==>
      var p := h'.births[e].value.p; p in now && now[p] == h'.births[e].after && (p in all ==> p in given)
  }

  lemma TargetsGrow(regs: seq<Registration>, i: nat)
    requires i < |regs|
    ensures Targets(regs[..i + 1]) == Targets(regs[..i]) + Target(regs[i].value)
    ensures Repeated(regs[..i + 1])
            == Repeated(regs[..i]) + if Target(regs[i].value) <= Targets(regs[..i]) then Target(regs[i].value) else {}
    ensures Target(regs[i].value) <= Targets(regs)
  {
    assert regs[..i + 1] == regs[..i] + [regs[i]];
    assert regs[..i + 1][..i] == regs[..i];
  }

  lemma SparedOn(start: map<Instance, seq<Value>>, was: map<Instance, seq<Value>>, now: map<Instance, seq<Value>>,
                 regs: seq<Registration>, i: nat)
    requires i < |regs| && Spared(start, was, regs, i) && Touched(was, now, Target(regs[i].value))
    ensures Spared(start, now, regs, i + 1)
    ensures regs[i].value.Ref? ==> regs[i].value.p in was
    ensures regs[i].value.Ref? ==>
              Begun(start, regs[i].value, Target(regs[i].value) !! Targets(regs[..i]), was[regs[i].value.p])
  {
    hide Targets, Lasting;
    TargetsGrow(regs, i);
    forall p <- Targets(regs)
      ensures p in now && Lasting(start[p], now[p])
    {
      if p in Target(regs[i].value) {
        LastingOn(start[p], was[p], now[p]);
      }
    }
  }

  lemma StandsOn(view: View, h: History, view': View, h': History, was: map<Instance, seq<Value>>, now: map<Instance, seq<Value>>,
                 regs: seq<Registration>, i: nat)
    requires i < |regs| && Standing(h, was, Repeated(regs[..i])) && StructsOf(h) * Targets(regs) <= Targets(regs[..i])
    requires Grew(view, h, view', h') && Touched(was, now, Target(regs[i].value))
    requires Added(h, h', now, Targets(regs), Target(regs[i].value))
    ensures Standing(h', now, Repeated(regs[..i + 1])) && StructsOf(h') * Targets(regs) <= Targets(regs[..i + 1])
  {
    hide Targets, Lasting, Repeated;
    TargetsGrow(regs, i);
    forall e <- h'.order | e in h'.births && h'.births[e].value.Ref?
      ensures var p, b := h'.births[e].value.p, h'.births[e];
              && p in now && Lasting(b.after, now[p]) && (p !in Repeated(regs[..i + 1]) ==> now[p] == b.after)
              && (p in Targets(regs) ==> p in Targets(regs[..i + 1]))
    {
      var p, b := h'.births[e].value.p, h'.births[e];
      if e in h.order {
        assert p in StructsOf(h);
        if p in Target(regs[i].value) {
          LastingOn(b.after, was[p], now[p]);
        }
      } else {
        LastingSelf(now[p]);
      }
    }
  }

  // ----- the run on the graph object

  /** The fields of all structs the objects have and the registrations were given. */
  ghost function Now(h: History, regs: seq<Registration>): map<Instance, seq<Value>>
    reads StructsOf(h), Targets(regs)
  {
    Fields(StructsOf(h) + Targets(regs))
  }

  /**
   The life of a graph: registrations, each of which may fail, and then shutdown. Of every object that started it is
   known what its fields were injected with, and that they were left so; if keys are kept apart, exactly the closable
   objects that started are closed, in the reverse of that order, so before anything they were injected with.
   */
  method Lifecycle(schema: Schema, ghost rank: seq<nat>, regs: seq<Registration>)
    returns (g: Graph, results: seq<Result<Value, Error>>, ghost view: View, ghost counts: seq<nat>, ghost closings: seq<Entry>)
    requires Ranked(schema, rank) && AllProper(schema, regs)
    modifies Targets(regs)
    ensures fresh(g) && fresh(g.objects) && g.schema == schema
    ensures AllStarted(schema, g.hist, old(Fields(Targets(regs))), regs, results, counts)
    ensures forall e <- g.hist.order :: e in g.hist.births && HoldsFound(schema, g.hist.births, e.t, g.hist.births[e])
    ensures Sound(schema, view, g.hist) && Standing(g.hist, Now(g.hist, regs), Repeated(regs))
    ensures (forall e <- g.hist.order :: Backed(g.objects, e)) && forall o <- g.objects :: Recalled(g.hist, o)
    ensures forall o <- g.objects :: o.closed <==> o.AsEntry() in closings
    ensures TraceOf(g.events) == Ups(schema, g.hist.order) + Downs(closings) && WellStarted(schema, g.hist, TraceOf(g.events))
    ensures closings == CloseRun(schema, WalkBack(view), {})
    ensures Unique(closings) && forall e :: e in closings <==> schema.closable(e.t) && Present(view, e)
    ensures Tidy(schema, rank) && KeysApart(schema, rank, regs) ==>
              !g.hist.clashed && closings == LastFirst(schema, g.hist.order) && WellClosed(schema, g.hist, TraceOf(g.events))
    ensures Sturdy(schema) && !CanFail(schema) && (forall r <- regs :: Certain(schema, r)) ==>
              forall i :: 0 <= i < |regs| ==> Expected(schema, rank, regs[..i], regs[i], results[i])
  {
    hide Sound, WellTyped, Unique, Tidy, Typed, KeysApart, AllKeys, KeysOf, Started, AllProper, Targets, Backed, Sturdy, CanFail,
         Certain, Expected, Fits, LastFirst, CloseRun, Present, Standing, Repeated, SafeShutdown, StructsOf, WellStarted, WellClosed, TraceOf, Ups, Downs, Counted, HoldsFound;
    g, results, counts := RegisterAll(schema, rank, regs);
    view := g.view;
    closings := CloseAll(g, regs);
    AllHoldFound(schema, view, g.hist);
    ClosedIffPresent(schema, view, g.hist);
    RunIsOrderly(schema, view, g.hist, closings);
    if !g.hist.clashed {
      ShutdownIsSafe(schema, view, g.hist);
    }
  }

  lemma AllRecalled(g: Graph)
    requires g.Valid()
    ensures forall o <- g.objects :: Recalled(g.hist, o)
  {
  }

  /** Shutdown leaves the structs alone. */
  method CloseAll(g: Graph, ghost regs: seq<Registration>) returns (ghost closings: seq<Entry>)
    requires g.Valid()
    modifies g`view, g`events, g.named, g.named.ring, g.named.ring.Repr, g.objects`closed
    ensures closings == CloseRun(g.schema, WalkBack(old(g.view)), {})
    ensures !g.hist.clashed ==> closings == LastFirst(g.schema, g.hist.order)
    ensures TraceOf(g.events) == Ups(g.schema, g.hist.order) + Downs(closings)
    ensures forall o <- g.objects :: o.closed <==> o.AsEntry() in closings
    ensures forall o <- g.objects :: Recalled(g.hist, o)
    ensures Now(g.hist, regs) == old(Now(g.hist, regs))
  {
    hide Sound, CloseRun, LastFirst, Entries, Unique, KeysOf, Numbered, Backed, Now, WalkBack, TraceOf, Ups, Downs;
    AllRecalled(g);
    ghost var now := Now(g.hist, regs);
    NowHas(g.hist, regs);
    closings := g.Close();
    forall p <- StructsOf(g.hist) + Targets(regs)
      ensures p.fields == now[p]
    {
      assert old(allocated(p)) && now[p] == old(p.fields);
    }
    NowIs(g.hist, regs, now);
  }

  lemma NowIs(h: History, regs: seq<Registration>, now: map<Instance, seq<Value>>)
    requires now.Keys == StructsOf(h) + Targets(regs) && forall p <- now :: p.fields == now[p]
    ensures Now(h, regs) == now
  {
  }

  /** The object is one of those that started, with the value it started with. */
  ghost predicate Recalled(h: History, o: Object)
    reads o
  {
    o.AsEntry() in h.order && o.AsEntry() in h.births && o.Value == h.births[o.AsEntry()].value
  }

  method RegisterGiven(g: Graph, ghost rank: seq<nat>, r: Registration, ghost all: set<Instance>, ghost was: map<Instance, seq<Value>>)
    returns (result: Result<Value, Error>, ghost e: Entry, ghost b: Birth)
    requires g.Valid() && Ranked(g.schema, rank) && Proper(g.schema, r.t, r.value)
    requires was.Keys == all && forall p <- all :: was[p] == p.fields
    modifies g`view, g`hist, g`objects, g`events, g.named, g.named.ring, g.named.ring.Repr, Target(r.value)
    ensures g.Valid() && fresh(g.named.ring.Repr - old(g.named.ring.Repr)) && fresh(g.objects - old(g.objects))
    ensures old(g.objects) <= g.objects && Holding(g.objects - old(g.objects), g.hist.births)
    ensures fresh(Structs(g.objects - old(g.objects)) - Target(r.value))
    ensures Proper(g.schema, r.t, r.value) && (r.value.Ref? ==> Lasting(old(r.value.p.fields), r.value.p.fields))
    ensures forall p <- all :: if p in Target(r.value) then Lasting(was[p], p.fields) else p.fields == was[p]
    ensures Grew(old(g.view), old(g.hist), g.view, g.hist) && Fated(g.schema, old(g.view), g.view, r, result)
    ensures result.Err? ==> Nested(old(g.hist), g.hist)
    ensures result.Ok? ==> b.value == result.value && IsBirth(b, r.value, r.singleton, r.noFill, |old(g.hist).order|)
    ensures result.Ok? && r.value.Ref? ==> b.before == old(r.value.p.fields)
    ensures var name, under := NameOf(g.schema, r.name, r.t), Under(g.schema, rank, r.t);
            && (result.Ok? ==> Entered(g.schema, old(g.hist), g.view, g.hist, name, r.t, b, e))
            && if result.Ok? then
                 Tame(old(g.view), old(g.hist), g.view, g.hist, under + OwnKeys(g.schema, name, r.t, r.singleton),
                      Tidy(g.schema, rank) && Unclaimed(g.schema, old(g.view), under, name, r.t, r.singleton))
               else Tame(old(g.view), old(g.hist), g.view, g.hist, under, Tidy(g.schema, rank))
  {
    hide Sound, Tame, Tidy, GoesWell, Unclaimed, Welcome, Built, Look, Sturdy, Grew, WellTyped, Numbered, Backed,
         OwnKeys, Under, Entered, Proper, Sane, Holding, Structs, Lasting, Nested, Fits, Typed;
    result, e, b := g.Register(rank, r.name, r.t, r.value, r.singleton, r.noFill);
  }

  /** What a registration does to the structs, seen from the history. */
  method RegisterSeen(g: Graph, ghost rank: seq<nat>, regs: seq<Registration>, r: Registration)
    returns (result: Result<Value, Error>, ghost e: Entry, ghost b: Birth)
    requires g.Valid() && Ranked(g.schema, rank) && r in regs && AllProper(g.schema, regs)
    modifies g`view, g`hist, g`objects, g`events, g.named, g.named.ring, g.named.ring.Repr, Target(r.value)
    ensures g.Valid() && fresh(g.named.ring.Repr - old(g.named.ring.Repr)) && fresh(g.objects - old(g.objects))
    ensures AllProper(g.schema, regs)
    ensures Grew(old(g.view), old(g.hist), g.view, g.hist) && Fated(g.schema, old(g.view), g.view, r, result)
    ensures result.Err? ==> Nested(old(g.hist), g.hist)
    ensures result.Ok? ==> b.value == result.value && IsBirth(b, r.value, r.singleton, r.noFill, |old(g.hist).order|)
    ensures result.Ok? && r.value.Ref? ==> b.before == old(r.value.p.fields)
    ensures result.Ok? ==> Entered(g.schema, old(g.hist), g.view, g.hist, NameOf(g.schema, r.name, r.t), r.t, b, e)
    ensures var name, under := NameOf(g.schema, r.name, r.t), Under(g.schema, rank, r.t);
            if result.Ok? then
              Tame(old(g.view), old(g.hist), g.view, g.hist, under + OwnKeys(g.schema, name, r.t, r.singleton),
                   Tidy(g.schema, rank) && Unclaimed(g.schema, old(g.view), under, name, r.t, r.singleton))
            else Tame(old(g.view), old(g.hist), g.view, g.hist, under, Tidy(g.schema, rank))
    ensures Touched(old(Now(g.hist, regs)), Now(g.hist, regs), Target(r.value))
    ensures Added(old(g.hist), g.hist, Now(g.hist, regs), Targets(regs), Target(r.value))
  {
    hide Sound, Tame, Tidy, Unclaimed, Look, Grew, WellTyped, OwnKeys, Under, Entered, AllProper, Fated, Lasting;
    GivenIsProper(g.schema, regs, r);
    hide Fields, Holding, Structs, Now, Sane, Touched, Added, Proper, Typed, Built, Tame, Numbered, Backed;
    AllAreThere(g);
    NowHas(g.hist, regs);
    WereSane(g.schema, g.hist, regs);
    ghost var all, was, view0, hist0, objects0 := StructsOf(g.hist) + Targets(regs), Now(g.hist, regs), g.view, g.hist, g.objects;
    result, e, b := RegisterGiven(g, rank, r, all, was);
    AreSane(g.schema, was, regs, r);
    StructsGrow(view0, hist0, g.view, g.hist);
    forall p <- Targets(regs)
      ensures p !in Structs(g.objects - objects0) - Target(r.value)
    {
      assert old(allocated(p));
    }
    AreAdded(g, regs, r, hist0, objects0);
    IsTouched(all, was, g.hist, regs, r);
  }

  ghost predicate SaneIn(schema: Schema, was: map<Instance, seq<Value>>, regs: seq<Registration>) {
    && (forall r <- regs :: Typed(schema, r.t, r.value))
    && forall p <- Targets(regs) :: p in was && p.stype < |schema.structs| && WellTyped(schema, schema.structs[p.stype], was[p])
  }

  lemma WereSane(schema: Schema, h: History, regs: seq<Registration>)
    requires AllProper(schema, regs)
    ensures SaneIn(schema, Now(h, regs), regs)
  {
    hide Now, WellTyped;
    NowHas(h, regs);
    forall p <- Targets(regs)
      ensures p in Now(h, regs) && p.stype < |schema.structs| && WellTyped(schema, schema.structs[p.stype], Now(h, regs)[p])
    {
      assert Sane(schema, p);
    }
  }

  lemma AreSane(schema: Schema, was: map<Instance, seq<Value>>, regs: seq<Registration>, r: Registration)
    requires SaneIn(schema, was, regs) && Proper(schema, r.t, r.value)
    requires forall p <- Targets(regs) :: p !in Target(r.value) ==> p.fields == was[p]
    ensures AllProper(schema, regs)
  {
    ProperIsSane(schema, r.t, r.value);
  }

  lemma AllAreThere(g: Graph)
    requires g.Valid()
    ensures forall o <- g.objects :: o.AsEntry() in g.hist.order
  {
  }

  lemma StructsGrow(view: View, h: History, view': View, h': History)
    requires Grew(view, h, view', h')
    ensures StructsOf(h) <= StructsOf(h')
  {
  }

  lemma IsTouched(all: set<Instance>, was: map<Instance, seq<Value>>, h: History, regs: seq<Registration>, r: Registration)
    requires was.Keys == all <= StructsOf(h) + Targets(regs)
    requires forall p <- all :: if p in Target(r.value) then Lasting(was[p], p.fields) else p.fields == was[p]
    ensures Touched(was, Now(h, regs), Target(r.value))
  {
  }

  lemma AreAdded(g: Graph, regs: seq<Registration>, r: Registration, hist0: History, objects0: set<Object>)
    requires g.Valid() && objects0 <= g.objects && Holding(g.objects - objects0, g.hist.births)
    requires forall o <- objects0 :: o.AsEntry() in hist0.order
    requires (Structs(g.objects - objects0) - Target(r.value)) !! Targets(regs)
    ensures Added(hist0, g.hist, Now(g.hist, regs), Targets(regs), Target(r.value))
  {
    hide Sound, Targets, Now;
    NowHas(g.hist, regs);
    forall e <- g.hist.order | e !in hist0.order && e in g.hist.births && g.hist.births[e].value.Ref?
      ensures var p := g.hist.births[e].value.p;
              && p in Now(g.hist, regs) && Now(g.hist, regs)[p] == g.hist.births[e].after
              && (p in Targets(regs) ==> p in Target(r.value))
    {
      assert Backed(g.objects, e);
      var o :| o in g.objects && o.AsEntry() == e;
      assert o in g.objects - objects0;
      assert o.Value.p in Structs(g.objects - objects0);
    }
  }

  lemma NowHas(h: History, regs: seq<Registration>)
    ensures Now(h, regs).Keys == StructsOf(h) + Targets(regs)
    ensures forall p <- StructsOf(h) + Targets(regs) :: Now(h, regs)[p] == p.fields
  {
  }

  /** All that is known after `i` registrations. */
  ghost predicate Underway(schema: Schema, rank: seq<nat>, regs: seq<Registration>, i: nat, start: map<Instance, seq<Value>>,
                           view: View, h: History, now: map<Instance, seq<Value>>, results: seq<Result<Value, Error>>,
                           counts: seq<nat>)
    requires Ranked(schema, rank) && i <= |regs|
  {
    && AllStarted(schema, h, start, regs[..i], results, counts) && Calm(schema, rank, regs[..i], view, h)
    && Smooth(schema, rank, regs[..i], view, results)
    && Spared(start, now, regs, i) && Standing(h, now, Repeated(regs[..i]))
    && StructsOf(h) * Targets(regs) <= Targets(regs[..i])
  }

  method RegisterNext(g: Graph, ghost rank: seq<nat>, regs: seq<Registration>, i: nat, ghost start: map<Instance, seq<Value>>,
                      ghost results: seq<Result<Value, Error>>, ghost counts: seq<nat>)
    returns (result: Result<Value, Error>)
    requires g.Valid() && Ranked(g.schema, rank) && i < |regs| && AllProper(g.schema, regs)
    requires Underway(g.schema, rank, regs, i, start, g.view, g.hist, Now(g.hist, regs), results, counts)
    modifies g`view, g`hist, g`objects, g`events, g.named, g.named.ring, g.named.ring.Repr, Target(regs[i].value)
    ensures g.Valid() && fresh(g.named.ring.Repr - old(g.named.ring.Repr)) && fresh(g.objects - old(g.objects))
    ensures AllProper(g.schema, regs)
    ensures Underway(g.schema, rank, regs, i + 1, start, g.view, g.hist, Now(g.hist, regs), results + [result],
                     counts + [|g.hist.order|])
  {
    hide Sound, Calm, AllStarted, Started, Tame, Tidy, Unclaimed, Look, Grew, WellTyped, Numbered, Backed, Fields, Nested,
         OwnKeys, Under, Entered, Proper, AllProper, Fated, Smooth, Spared, Standing, StructsOf, Targets, Repeated, Lasting, Touched,
         Added;
    ghost var view, hist, was := g.view, g.hist, Now(g.hist, regs);
    ghost var e, b;
    OwnIsThere(g.hist, regs, i);
    result, e, b := RegisterSeen(g, rank, regs, regs[i]);
    IsInOrder(g);
    SparedOn(start, was, Now(g.hist, regs), regs, i);
    StandsOn(view, hist, g.view, g.hist, was, Now(g.hist, regs), regs, i);
    StartedOn(g.schema, view, hist, g.view, g.hist, start, regs, i, results, result, counts, e, b);
    CalmOn(g.schema, rank, regs, i, view, hist, g.view, g.hist, result.Ok?);
    SmoothOn(g.schema, rank, regs, i, view, hist, g.view, results, result);
  }

  lemma IsInOrder(g: Graph)
    requires g.Valid()
    ensures InOrder(g.hist.order)
  {
  }

  lemma OwnIsThere(h: History, regs: seq<Registration>, i: nat)
    requires i < |regs|
    ensures regs[i].value.Ref? ==> regs[i].value.p in Now(h, regs) && Now(h, regs)[regs[i].value.p] == regs[i].value.p.fields
  {
  }

  lemma NothingYet(schema: Schema, rank: seq<nat>, regs: seq<Registration>)
    requires Ranked(schema, rank)
    ensures var h := History([], map[], false); Underway(schema, rank, regs, 0, Fields(Targets(regs)), [], h, Now(h, regs), [], [0])
  {
    assert regs[..0] == [];
    forall p <- Targets(regs)
      ensures Lasting(p.fields, p.fields)
    {
      LastingSelf(p.fields);
    }
  }

  lemma AllThrough(schema: Schema, rank: seq<nat>, regs: seq<Registration>, start: map<Instance, seq<Value>>, view: View, h: History,
                   now: map<Instance, seq<Value>>, results: seq<Result<Value, Error>>, counts: seq<nat>)
    requires Ranked(schema, rank) && Underway(schema, rank, regs, |regs|, start, view, h, now, results, counts)
    ensures AllStarted(schema, h, start, regs, results, counts) && Smooth(schema, rank, regs, view, results)
    ensures Standing(h, now, Repeated(regs)) && (Tidy(schema, rank) && KeysApart(schema, rank, regs) ==> !h.clashed)
  {
    hide AllStarted, Smooth, Standing, Tidy, KeysApart, Spared, Targets;
    assert regs[..|regs|] == regs;
  }

  method RegisterAll(schema: Schema, ghost rank: seq<nat>, regs: seq<Registration>)
    returns (g: Graph, results: seq<Result<Value, Error>>, ghost counts: seq<nat>)
    requires Ranked(schema, rank) && AllProper(schema, regs)
    modifies Targets(regs)
    ensures fresh(g) && fresh(g.named) && fresh(g.named.ring) && fresh(g.named.ring.Repr) && fresh(g.objects)
    ensures g.Valid() && g.schema == schema && Standing(g.hist, Now(g.hist, regs), Repeated(regs))
    ensures AllStarted(schema, g.hist, old(Fields(Targets(regs))), regs, results, counts) && Smooth(schema, rank, regs, g.view, results)
    ensures Tidy(schema, rank) && KeysApart(schema, rank, regs) ==> !g.hist.clashed
  {
    hide Sound, WellTyped, Typed, Tidy, KeysApart, AllStarted, Numbered, Backed, AllProper, Smooth, Standing, Repeated, Targets,
         Fields, Underway, Now;
    ghost var start := Fields(Targets(regs));
    g := new Graph(schema);
    results, counts := [], [0];
    NothingYet(schema, rank, regs);
    for i := 0 to |regs|
      invariant fresh(g) && fresh(g.named) && fresh(g.named.ring) && fresh(g.named.ring.Repr) && fresh(g.objects)
      invariant g.Valid() && g.schema == schema && AllProper(schema, regs)
      invariant Underway(schema, rank, regs, i, start, g.view, g.hist, Now(g.hist, regs), results, counts)
    {
      TargetsGrow(regs, i);
      var result := RegisterNext(g, rank, regs, i, start, results, counts);
      results, counts := results + [result], counts + [|g.hist.order|];
    }
    AllThrough(schema, rank, regs, start, g.view, g.hist, Now(g.hist, regs), results, counts);
  }

  // ----- an object that is never closed, and one that is closed too late

  /** Two structs: the first has two fields for pointers to the second, tagged "a" and "c". Nothing can fail. */
  function SelfTagged(): Schema {
    Schema([[Field(Pointer(1), Tag("a"), false, false, true, false), Field(Pointer(1), Tag("c"), false, false, true, false)], []],
           {}, map[], t => if t == Pointer(0) then "*First" else if t == Pointer(1) then "*Second" else "other",
           t => false, t => true, r => r)
  }

  lemma SelfTaggedRanked(schema: Schema, rank: seq<nat>)
    requires schema == SelfTagged() && rank == [1, 0]
    ensures Ranked(schema, rank)
  {
    assert forall f <- schema.structs[0] :: f.tag.Tag? && f.ftype == Pointer(1);
    assert schema.structs[1] == [];
  }

  lemma SelfTaggedIsSturdy(schema: Schema)
    requires schema == SelfTagged()
    ensures Sturdy(schema) && !CanFail(schema)
  {
    forall s, i | 0 <= s < |schema.structs| && 0 <= i < |schema.structs[s]|
      ensures SturdyField(schema, schema.structs[s][i])
    {
      var f := schema.structs[s][i];
      assert f.ftype == Pointer(1);
      assert Supplies(schema, f, Pointer(1));
      forall t | Supplies(schema, f, t)
        ensures Welcome(schema, Key(schema, f), t, f.singleton)
      {
        AllSuit(schema, Key(schema, f));
      }
    }
  }

  lemma AllSuit(schema: Schema, key: string)
    requires schema == SelfTagged()
    ensures Suits(schema, key, Pointer(1))
  {
    forall s, i | 0 <= s < |schema.structs| && 0 <= i < |schema.structs[s]| && Reads(schema, schema.structs[s][i], key)
      ensures AssignableTo(schema, Pointer(1), schema.structs[s][i].ftype)
    {
      assert schema.structs[s][i].ftype == Pointer(1);
    }
  }

  /** A field of the first struct, when nothing is there under its tag: its dependency is a new object of that name. */
  lemma Dependency(schema: Schema, h: History, e: Entry, i: nat)
    requires schema == SelfTagged() && Borns(schema, h) && e in h.order && e.t == Pointer(0) && i < 2
    requires h.births[e].given == Nil && !h.births[e].noFill
    requires var b, f := h.births[e], schema.structs[0][i];
             |b.srcs| == 2 ==>
               Pos(b.began, b.srcs[..i]) <= |h.order|
               && Look(ViewOf(schema, h.births, h.order[..Pos(b.began, b.srcs[..i])]), f.tag.name) == None
    ensures var b, f := h.births[e], schema.structs[0][i];
            && |b.srcs| == 2 && e.id == Pos(b.began, b.srcs) && b.srcs[i].From? && b.srcs[i].dep in h.order
            && var d := b.srcs[i].dep;
               d == Entry(Pos(b.began, b.srcs[..i]), f.tag.name, Pointer(1)) && !h.births[d].singleton
  {
    var b, f := h.births[e], schema.structs[0][i];
    assert Built(schema, h, e.t, b, e.id);
    var p := Pos(b.began, b.srcs[..i]);
    assert FieldDone(schema, h.births, f, b.before[i], b.after[i], b.srcs[i]) && Traced(schema, h, f, p, b.srcs[i]);
    assert b.before[i] == Nil;
    var d := b.srcs[i].dep;
    NoFields(schema, h, d);
  }

  lemma NoFields(schema: Schema, h: History, d: Entry)
    requires schema == SelfTagged() && Borns(schema, h) && d in h.order && d.t == Pointer(1)
    ensures d.id == h.births[d].began
  {
    assert Built(schema, h, d.t, h.births[d], d.id);
  }

  /** The three objects of that registration. */
  function Three(): (seq<Entry>) {
    [Entry(0, "a", Pointer(1)), Entry(1, "c", Pointer(1)), Entry(2, "a", Pointer(0))]
  }

  lemma FirstOfThree(schema: Schema, h: History, e: Entry)
    requires schema == SelfTagged() && Borns(schema, h) && e in h.order && e.t == Pointer(0) && e.name == "a"
    requires h.births[e].given == Nil && !h.births[e].noFill && h.births[e].began == 0
    ensures var b := h.births[e];
            && |b.srcs| == 2 && b.srcs[0] == From(Three()[0]) && Three()[0] in h.order && !h.births[Three()[0]].singleton
            && Pos(0, b.srcs[..1]) == 1 && e.id == Pos(0, b.srcs)
  {
    var b := h.births[e];
    assert h.order[..0] == [] && b.srcs[..0] == [];
    Dependency(schema, h, e, 0);
    assert b.srcs[..1][..0] == [] && b.srcs[..1][0] == b.srcs[0];
  }

  lemma SecondOfThree(schema: Schema, h: History, e: Entry)
    requires schema == SelfTagged() && Borns(schema, h) && InOrder(h.order) && e in h.order && e.t == Pointer(0) && e.name == "a"
    requires h.births[e].given == Nil && !h.births[e].noFill && h.births[e].began == 0
    ensures var b := h.births[e];
            && |b.srcs| == 2 && b.srcs == [From(Three()[0]), From(Three()[1])] && e == Three()[2]
            && Three()[0] in h.order && Three()[1] in h.order && !h.births[Three()[0]].singleton && !h.births[Three()[1]].singleton
  {
    var b, d := h.births[e], Three()[0];
    FirstOfThree(schema, h, e);
    assert h.order[0] == d;
    assert h.order[..1] == [d] && [d][..0] == [];
    assert ViewOf(schema, h.births, []) == [];
    assert ViewOf(schema, h.births, [d]) == [("a", d)];
    assert [("a", d)][1..] == [];
    assert Look([("a", d)], "c") == None;
    Dependency(schema, h, e, 1);
    assert b.srcs[..2] == b.srcs && b.srcs == b.srcs[..1] + [b.srcs[1]];
    PosMore(0, b.srcs[..1], b.srcs[1]);
  }

  lemma ViewOfThree(schema: Schema, h: History)
    requires schema == SelfTagged() && h.order == Three()
    requires forall e <- h.order :: e in h.births && !h.births[e].singleton
    ensures ViewOf(schema, h.births, h.order) == [("a", Three()[2]), ("c", Three()[1])]
  {
    var d0, d1, e := Three()[0], Three()[1], Three()[2];
    assert h.order[..2] == [d0, d1] && [d0, d1][..1] == [d0] && [d0][..0] == [];
    assert d0 in h.order && d1 in h.order && e in h.order;
    assert ViewOf(schema, h.births, []) == [];
    assert ViewOf(schema, h.births, [d0]) == [("a", d0)];
    assert Put([("a", d0)], "c", d1) == [("a", d0), ("c", d1)];
    assert ViewOf(schema, h.births, [d0, d1]) == [("a", d0), ("c", d1)];
    assert Put([("a", d0), ("c", d1)], "a", e) == [("a", e), ("c", d1)];
  }

  lemma AreThree(schema: Schema, view: View, h: History, b: Birth, e: Entry)
    requires schema == SelfTagged() && Sound(schema, view, h)
    requires Entered(schema, History([], map[], false), view, h, "a", Pointer(0), b, e)
    requires IsBirth(b, Nil, false, false, 0)
    ensures h.order == Three() && view == [("a", Three()[2]), ("c", Three()[1])]
    ensures Deps(h.births, Three()[2]) == {Three()[0], Three()[1]}
  {
    hide ViewOf, ClashOf, Built, KeysOf, Spells, Topological, Look, Listed, Unique;
    SecondOfThree(schema, h, e);
    assert |h.order| == 3;
    assert h.order == Three();
    assert b.srcs[0].dep == Three()[0] && b.srcs[1].dep == Three()[1];
    ViewOfThree(schema, h);
  }

  /** The last place of `e` is before that of what it was injected with. */
  lemma ThreeClosings(schema: Schema)
    requires schema == SelfTagged()
    ensures CloseRun(schema, WalkBack([("a", Three()[2]), ("c", Three()[1])]), {}) == [Three()[1], Three()[2]]
  {
    var d1, e := Three()[1], Three()[2];
    assert WalkBack([("a", e), ("c", d1)]) == [d1, e];
    assert [d1, e][1..] == [e] && [e][1..] == [];
    var none: set<Entry> := {};
    assert none + {d1} == {d1};
    assert CloseRun(schema, [e], {d1}) == [e];
  }

  lemma NothingFails(schema: Schema, rank: seq<nat>, view: View, r: Result<Value, Error>)
    requires schema == SelfTagged() && (r.Err? ==> r.error !in {NameEmpty, AlreadyRegistered})
    requires r.Err? ==> GoesWell(schema, Sturdy(schema), [], view, Some(r.error))
    ensures r.Ok?
  {
    SelfTaggedIsSturdy(schema);
  }

  lemma FirstIsProper(schema: Schema, rank: seq<nat>)
    requires schema == SelfTagged() && rank == [1, 0]
    ensures Ranked(schema, rank) && Proper(schema, Pointer(0), Nil) && NameOf(schema, "a", Pointer(0)) == "a"
    ensures forall view: View :: view == [] ==> Look(view, "a") == None
  {
    SelfTaggedRanked(schema, rank);
  }

  method RegisterSelfNamed() returns (g: Graph)
    ensures fresh(g) && fresh(g.named) && fresh(g.named.ring) && fresh(g.named.ring.Repr) && fresh(g.objects)
    ensures g.Valid() && g.schema == SelfTagged() && g.hist.order == Three()
    ensures g.view == [("a", Three()[2]), ("c", Three()[1])] && Deps(g.hist.births, Three()[2]) == {Three()[0], Three()[1]}
  {
    hide Sound, Tame, Built, Entered, Sturdy, CanFail, KeysUnder, Unclaimed, Welcome, Tidy, Ranked, OwnKeys, SelfTagged, Numbered,
         Backed, GoesWell, Holding, Structs, Nested, Grew, Proper, Look, Under, Lasting, Present, Deps, Three;
    ghost var rank: seq<nat> := [1, 0];
    g := new Graph(SelfTagged());
    FirstIsProper(g.schema, rank);
    var r, e, b := g.Register(rank, "a", Pointer(0), Nil, false, false);
    NothingFails(g.schema, rank, g.view, r);
    IsSoundNow(g);
    AreThree(g.schema, g.view, g.hist, b, e);
  }

  lemma IsSoundNow(g: Graph)
    requires g.Valid()
    ensures Sound(g.schema, g.view, g.hist)
  {
  }

  /**
   A dependency tagged with the very name under which its object is registered: it starts, the object replaces it
   under their common key, and shutdown never closes it, though nothing failed. The other dependency has the last key,
   so it is closed before the object that was injected with it.
   */
  method SelfNamed() returns (g: Graph, ghost closings: seq<Entry>)
    ensures g.schema == SelfTagged() && g.hist.order == Three() && Deps(g.hist.births, Three()[2]) == {Three()[0], Three()[1]}
    ensures closings == [Three()[1], Three()[2]] && TraceOf(g.events) == Downs(closings)
    ensures !ClosesInOrder(g.hist.births, TraceOf(g.events)) && !SafeShutdown(g.schema, g.hist, closings)
    ensures forall o <- g.objects :: o.closed <==> o.AsEntry() != Three()[0]
  {
    hide Sound, CloseRun, WalkBack, Deps;
    g := RegisterSelfNamed();
    ThreeClosings(g.schema);
    NoUps(g.schema, g.hist.order);
    closings := CloseAll(g, []);
    ghost var t := TraceOf(g.events);
    assert t == Downs(closings);
    assert t[0] == Down(Three()[1]) && t[1] == Down(Three()[2]);
    assert Three()[1] in Deps(g.hist.births, Three()[2]);
  }

  lemma {:induction false} NoUps(schema: Schema, order: seq<Entry>)
    requires schema == SelfTagged()
    ensures Ups(schema, order) == []
  {
    if order != [] {
      NoUps(schema, order[..|order| - 1]);
    }
  }
}
