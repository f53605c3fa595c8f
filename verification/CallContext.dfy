/**
 The AI call context: a context variable with reset tokens, task bodies that bind and nest, and
 the Celery signals that hand a request's work unit down to the tasks it leads to.
 */
module CallContext {
  import opened Common

  // ----- The context and its variable

  datatype Context = Context(tenant: Option<Id>, user: Option<Id>, action: Option<string>,
                             entityType: Option<string>, entity: Option<Id>, workUnit: Option<Id>)

  const BLANK := Context(None, None, None, None, None, None)

  function Over<T>(given: Option<T>, base: Option<T>): Option<T> {
    if given.Some? then given else base
  }

  /** `given` over `base`; a missing field never overwrites. */
  function Merge(base: Option<Context>, given: Context): Context {
    var b := base.GetOr(BLANK);
    Context(Over(given.tenant, b.tenant), Over(given.user, b.user), Over(given.action, b.action),
            Over(given.entityType, b.entityType), Over(given.entity, b.entity), Over(given.workUnit, b.workUnit))
  }

  predicate Overlaid<T(==)>(before: Option<T>, given: Option<T>, after: Option<T>) {
    if given.Some? then after == given else after == before
  }

  /** Field by field: what is given is there afterwards, and what is missing is as it was, or missing still. */
  predicate Overlays(before: Option<Context>, given: Context, after: Context) {
    var was := before.GetOr(BLANK);
    && Overlaid(was.tenant, given.tenant, after.tenant)
    && Overlaid(was.user, given.user, after.user)
    && Overlaid(was.action, given.action, after.action)
    && Overlaid(was.entityType, given.entityType, after.entityType)
    && Overlaid(was.entity, given.entity, after.entity)
    && Overlaid(was.workUnit, given.workUnit, after.workUnit)
  }

  function UnitOf(ctx: Option<Context>): Option<Id> {
    match ctx
    case None => None
    case Some(c) => c.workUnit
  }

  class Token {
    const before: Option<Context>
    const owner: ContextVar
    var used: bool

    constructor (before: Option<Context>, owner: ContextVar)
      ensures this.before == before && this.owner == owner && !used
    {
      this.before, this.owner, used := before, owner, false;
    }
  }

  class ContextVar {
    var value: Option<Context>

    constructor ()
      ensures value.None?
    {
      value := None;
    }

    method Bind(given: Context) returns (token: Token)
      modifies this
      ensures value == Some(Merge(old(value), given)) && Overlays(old(value), given, value.value)
      ensures fresh(token) && token.before == old(value) && token.owner == this && !token.used
    {
      token := new Token(value, this);
      value := Some(Merge(value, given));
    }

    /** A token of another context, or one used before, clears the context instead of restoring it. */
    method Unbind(token: Token)
      modifies this, token
      ensures value == if old(token.used) || token.owner != this then None else token.before
      ensures token.used
    {
      value := if token.used || token.owner != this then None else token.before;
      token.used := true;
    }

    method WorkUnitOr(default: Id) returns (unit: Id)
      ensures unit == UnitOf(value).GetOr(default)
    {
      unit := if value.Some? && value.value.workUnit.Some? then value.value.workUnit.value else default;
    }
  }

  // ----- Task bodies

  /** The work-unit header of a message: absent, empty, a readable id, or anything else. */
  datatype Header = Missing | Blank | Unit(id: Id) | Malformed

  /** `root` is the request that set a chain of tasks off. */
  datatype Job = Job(id: Id, root: Id, header: Header, body: Body)
  datatype Body = Skip | Bind(given: Binding) | With(fields: Binding, inner: Body) | Then(first: Body, second: Body)
                | Raise | Attempt(tried: Body, handler: Body) | Enqueue(job: Job) | Call

  /** The fields of a bind; with a default, the work unit is `work_unit_id_or(default)` at that moment. */
  datatype Binding = Binding(fields: Context, default: Option<Id>)

  function Given(b: Binding, unit: Option<Id>): Context {
    match b.default
    case None => b.fields
    case Some(d) => b.fields.(workUnit := Some(unit.GetOr(d)))
  }

  function HeaderUnit(header: Header): Option<Id> {
    match header
    case Unit(id) => Some(id)
    case _ => None
  }

  /** `setdefault`: a message that has the header keeps it; any other gets the current work unit, if there is one. */
  function Published(header: Header, unit: Option<Id>): Header {
    if header.Missing? && unit.Some? then Unit(unit.value) else header
  }

  /** What running a body leaves: the context, whether an exception escaped, messages sent, and each call's context. */
  datatype Outcome = Outcome(ctx: Option<Context>, raised: bool, sent: seq<Job>, calls: seq<Option<Context>>)

  function After(o: Outcome, p: Outcome): Outcome {
    Outcome(p.ctx, p.raised, o.sent + p.sent, o.calls + p.calls)
  }

  function Exec(body: Body, ctx: Option<Context>): Outcome {
    match body
    case Skip => Outcome(ctx, false, [], [])
    case Bind(given) => Outcome(Some(Merge(ctx, Given(given, UnitOf(ctx)))), false, [], [])
    case With(given, inner) =>
      Exec(inner, Some(Merge(ctx, Given(given, UnitOf(ctx))))).(ctx := ctx)
    case Then(first, second) =>
      var o := Exec(first, ctx);
      if o.raised then o else After(o, Exec(second, o.ctx))
    case Raise => Outcome(ctx, true, [], [])
    case Attempt(tried, handler) =>
      var o := Exec(tried, ctx);
      if o.raised then After(o, Exec(handler, o.ctx)) else o
    case Enqueue(job) => Outcome(ctx, false, [job.(header := Published(job.header, UnitOf(ctx)))], [])
    case Call => Outcome(ctx, false, [], [ctx])
  }

  /** The arguments of a bind, evaluated before it. */
  method FieldsOf(v: ContextVar, b: Binding) returns (fields: Context)
    ensures fields == Given(b, UnitOf(v.value))
  {
    fields := b.fields;
    if b.default.Some? {
      var unit := v.WorkUnitOr(b.default.value);
      fields := fields.(workUnit := Some(unit));
    }
  }

  /** Running a body on the variable: `With` binds, and its `finally` resets the token it got. */
  method Run(v: ContextVar, body: Body) returns (raised: bool, sent: seq<Job>, calls: seq<Option<Context>>)
    modifies v
    ensures Outcome(v.value, raised, sent, calls) == Exec(body, old(v.value))
    decreases body
  {
    raised, sent, calls := false, [], [];
    match body
    case Skip =>
    case Bind(given) =>
      var fields := FieldsOf(v, given);
      var _ := v.Bind(fields);
    case With(given, inner) =>
      var fields := FieldsOf(v, given);
      var token := v.Bind(fields);
      raised, sent, calls := Run(v, inner);
      v.Unbind(token);
    case Then(first, second) =>
      raised, sent, calls := Run(v, first);
      if !raised {
        var more: seq<Job>, moreCalls: seq<Option<Context>>;
        raised, more, moreCalls := Run(v, second);
        sent, calls := sent + more, calls + moreCalls;
      }
    case Raise =>
      raised := true;
    case Attempt(tried, handler) =>
      raised, sent, calls := Run(v, tried);
      if raised {
        var more: seq<Job>, moreCalls: seq<Option<Context>>;
        raised, more, moreCalls := Run(v, handler);
        sent, calls := sent + more, calls + moreCalls;
      }
    case Enqueue(job) =>
      sent := [job.(header := Published(job.header, UnitOf(v.value)))];
    case Call =>
      calls := [v.value];
  }

  // ----- The worker

  /** One executed task: its id, its chain's root, the work unit it carried when its body began, and its calls. */
  datatype Entry = Entry(id: Id, root: Id, carried: Option<Id>, calls: seq<Option<Context>>)

  class Worker {
    const v: ContextVar
    var tokens: map<Id, Token>

    constructor ()
      ensures v.value.None? && tokens == map[] && fresh(v)
    {
      v := new ContextVar();
      tokens := map[];
    }

    method Prerun(id: Id, header: Header)
      modifies this, v
      ensures v.value == Some(Merge(old(v.value), BLANK.(workUnit := HeaderUnit(header))))
      ensures tokens.Keys == old(tokens.Keys) + {id} && fresh(tokens[id]) && !tokens[id].used
      ensures tokens[id].before == old(v.value) && tokens[id].owner == v
      ensures forall k :: k in old(tokens) && k != id ==> tokens[k] == old(tokens)[k]
    {
      var token := v.Bind(BLANK.(workUnit := HeaderUnit(header)));
      tokens := tokens[id := token];
    }

    method Postrun(id: Id)
      modifies this, v, tokens.Values
      ensures tokens == old(tokens) - {id}
      ensures id !in old(tokens) ==> v.value == old(v.value)
      ensures id in old(tokens) ==>
                v.value == if old(tokens[id].used) || old(tokens[id]).owner != v then None else old(tokens[id]).before
    {
      if id in tokens {
        var token := tokens[id];
        tokens := tokens - {id};
        v.Unbind(token);
      }
    }

    /**
     One task from prerun to postrun. Whatever its body binds, nests, catches or lets escape, the
     context is afterwards what it was before, and no token is left.
     */
    method Perform(job: Job) returns (entry: Entry, sent: seq<Job>)
      requires tokens == map[]
      modifies this, v
      ensures v.value == old(v.value) && tokens == map[]
      ensures var start := Some(Merge(old(v.value), BLANK.(workUnit := HeaderUnit(job.header))));
              && entry == Entry(job.id, job.root, UnitOf(start), Exec(job.body, start).calls)
              && sent == Exec(job.body, start).sent
    {
      Prerun(job.id, job.header);
      var carried := UnitOf(v.value);
      var raised: bool, calls: seq<Option<Context>>;
      raised, sent, calls := Run(v, job.body);
      Postrun(job.id);
      entry := Entry(job.id, job.root, carried, calls);
    }
  }

  function Size(body: Body): nat {
    match body
    case With(_, inner) => 1 + Size(inner)
    case Then(first, second) => 1 + Size(first) + Size(second)
    case Attempt(tried, handler) => 1 + Size(tried) + Size(handler)
    case Enqueue(job) => 1 + JobSize(job)
    case _ => 1
  }

  function JobSize(job: Job): nat {
    1 + Size(job.body)
  }

  function QueueSize(queue: seq<Job>): nat {
    if queue == [] then 0 else JobSize(queue[0]) + QueueSize(queue[1..])
  }

  lemma {:induction false} QueueSizeAdds(a: seq<Job>, b: seq<Job>)
    ensures QueueSize(a + b) == QueueSize(a) + QueueSize(b)
  {
    if a == [] {
      assert a + b == b;
    } else {
      assert (a + b)[1..] == a[1..] + b;
      QueueSizeAdds(a[1..], b);
    }
  }

  /** A body sends no more than is written in it. */
  lemma {:induction false} SentIsSmaller(body: Body, ctx: Option<Context>)
    ensures QueueSize(Exec(body, ctx).sent) <= Size(body)
  {
    match body
    case With(given, inner) =>
      SentIsSmaller(inner, Some(Merge(ctx, Given(given, UnitOf(ctx)))));
    case Then(first, second) =>
      var o := Exec(first, ctx);
      SentIsSmaller(first, ctx);
      SentIsSmaller(second, o.ctx);
      QueueSizeAdds(o.sent, Exec(second, o.ctx).sent);
    case Attempt(tried, handler) =>
      var o := Exec(tried, ctx);
      SentIsSmaller(tried, ctx);
      SentIsSmaller(handler, o.ctx);
      QueueSizeAdds(o.sent, Exec(handler, o.ctx).sent);
    case Enqueue(job) =>
      assert QueueSize([job]) == JobSize(job);
    case _ =>
  }

  /** The context a task's body starts in on an idle worker. */
  function StartContext(job: Job): Option<Context> {
    Some(BLANK.(workUnit := HeaderUnit(job.header)))
  }

  function Spawned(job: Job): seq<Job> {
    Exec(job.body, StartContext(job)).sent
  }

  function EntryOf(job: Job): Entry {
    Entry(job.id, job.root, HeaderUnit(job.header), Exec(job.body, StartContext(job)).calls)
  }

  /** What a queue of tasks comes to when every task starts from nothing but its own header. */
  function Trace(queue: seq<Job>): seq<Entry>
    decreases QueueSize(queue)
  {
    if queue == [] then []
    else
      SentIsSmaller(queue[0].body, StartContext(queue[0]));
      QueueSizeAdds(queue[1..], Spawned(queue[0]));
      [EntryOf(queue[0])] + Trace(queue[1..] + Spawned(queue[0]))
  }

  /**
   A worker process that works a queue off, tasks it enqueues included, one after the other on
   one context variable: it ends, and every task sees only what its own header says, never
   something an earlier task left.
   */
  method WorkOff(w: Worker, jobs: seq<Job>) returns (trace: seq<Entry>)
    requires w.tokens == map[] && w.v.value.None?
    modifies w, w.v
    ensures trace == Trace(jobs)
    ensures w.tokens == map[] && w.v.value.None?
  {
    trace := [];
    var queue := jobs;
    while queue != []
      invariant w.tokens == map[] && w.v.value.None?
      invariant trace + Trace(queue) == Trace(jobs)
      decreases QueueSize(queue)
    {
      var job := queue[0];
      var entry, sent := w.Perform(job);
      assert Merge(None, BLANK.(workUnit := HeaderUnit(job.header))) == BLANK.(workUnit := HeaderUnit(job.header));
      SentIsSmaller(job.body, StartContext(job));
      QueueSizeAdds(queue[1..], sent);
      trace, queue := trace + [entry], queue[1..] + sent;
    }
  }

  // ----- Where a work unit can come from

  /** The work units a body or a job names: bound, or written into a header. */
  function UnitsIn(body: Body): set<Id> {
    match body
    case Bind(given) => UnitsOf(given)
    case With(given, inner) => UnitsOf(given) + UnitsIn(inner)
    case Then(first, second) => UnitsIn(first) + UnitsIn(second)
    case Attempt(tried, handler) => UnitsIn(tried) + UnitsIn(handler)
    case Enqueue(job) => UnitsOfJob(job)
    case _ => {}
  }

  function UnitsOfJob(job: Job): set<Id> {
    Named(HeaderUnit(job.header)) + UnitsIn(job.body)
  }

  function UnitsOf(b: Binding): set<Id> {
    Named(Over(b.default, b.fields.workUnit))
  }

  function Named(unit: Option<Id>): set<Id> {
    if unit.Some? then {unit.value} else {}
  }

  /** Every job a body enqueues, at any depth, belongs to the chain of `root`. */
  predicate OfRoot(body: Body, root: Id) {
    match body
    case With(_, inner) => OfRoot(inner, root)
    case Then(first, second) => OfRoot(first, root) && OfRoot(second, root)
    case Attempt(tried, handler) => OfRoot(tried, root) && OfRoot(handler, root)
    case Enqueue(job) => job.root == root && OfRoot(job.body, root)
    case _ => true
  }

  /** `units` are all the work units the job and its descendants name. */
  ghost predicate Within(job: Job, units: set<Id>) {
    UnitsOfJob(job) <= units && OfRoot(job.body, job.root)
  }

  lemma {:induction false} SentWithin(body: Body, ctx: Option<Context>, root: Id, units: set<Id>)
    requires UnitsIn(body) <= units && OfRoot(body, root) && Named(UnitOf(ctx)) <= units
    ensures Named(UnitOf(Exec(body, ctx).ctx)) <= units
    ensures forall j :: j in Exec(body, ctx).sent ==> j.root == root && Within(j, units)
    ensures forall c :: c in Exec(body, ctx).calls ==> Named(UnitOf(c)) <= units
  {
    match body
    case With(given, inner) =>
      SentWithin(inner, Some(Merge(ctx, Given(given, UnitOf(ctx)))), root, units);
    case Then(first, second) =>
      SentWithin(first, ctx, root, units);
      SentWithin(second, Exec(first, ctx).ctx, root, units);
    case Attempt(tried, handler) =>
      SentWithin(tried, ctx, root, units);
      SentWithin(handler, Exec(tried, ctx).ctx, root, units);
    case _ =>
  }

  /**
   A task only ever carries a work unit its own chain names, and its calls are charged to no other:
   the one its originating request put into the first message, or one an ancestor or the task itself
   bound or wrote. Chains may be interleaved in any way.
   */
  lemma {:induction false} NoForeignUnit(queue: seq<Job>, owned: Id -> set<Id>)
    requires forall j :: j in queue ==> Within(j, owned(j.root))
    ensures forall e :: e in Trace(queue) ==>
              && (e.carried.Some? ==> e.carried.value in owned(e.root))
              && forall c :: c in e.calls && UnitOf(c).Some? ==> UnitOf(c).value in owned(e.root)
    decreases QueueSize(queue)
  {
    if queue != [] {
      var job := queue[0];
      assert job in queue;
      SentWithin(job.body, StartContext(job), job.root, owned(job.root));
      SentIsSmaller(job.body, StartContext(job));
      QueueSizeAdds(queue[1..], Spawned(job));
      var rest := queue[1..] + Spawned(job);
      forall j | j in rest ensures Within(j, owned(j.root)) {
        assert j in queue[1..] ==> j in queue;
      }
      hide Within;
      NoForeignUnit(rest, owned);
    }
  }

  // ----- Which bindings are in force

  const TENANT: Context -> Option<Id> := (c: Context) => c.tenant
  const USER: Context -> Option<Id> := (c: Context) => c.user
  const ACTION: Context -> Option<string> := (c: Context) => c.action
  const ENTITY_TYPE: Context -> Option<string> := (c: Context) => c.entityType
  const ENTITY: Context -> Option<Id> := (c: Context) => c.entity
  const WORK_UNIT: Context -> Option<Id> := (c: Context) => c.workUnit

  /** What the latest of the bindings that give the field gives. */
  function Latest<T>(bound: seq<Context>, field: Context -> Option<T>): Option<T> {
    if bound == [] then None else Over(field(bound[|bound| - 1]), Latest(bound[..|bound| - 1], field))
  }

  /** Each field of the context is what the latest binding that gives it gives. */
  ghost predicate ReadsAs(ctx: Option<Context>, bound: seq<Context>) {
    var c := ctx.GetOr(BLANK);
    && c.tenant == Latest(bound, TENANT) && c.user == Latest(bound, USER)
    && c.action == Latest(bound, ACTION) && c.entityType == Latest(bound, ENTITY_TYPE)
    && c.entity == Latest(bound, ENTITY) && c.workUnit == Latest(bound, WORK_UNIT)
  }

  /** A message as its body wrote it, with the latest work unit in scope where it was sent. */
  datatype Enqueued = Enqueued(job: Job, bound: Option<Id>)

  /** A body read without a context: the bindings in scope at its end, at each message and at each call. */
  datatype Scoped = Scoped(bound: seq<Context>, raised: bool, sent: seq<Enqueued>, calls: seq<seq<Context>>)

  function Now(b: Binding, bound: seq<Context>): Context {
    Given(b, Latest(bound, WORK_UNIT))
  }

  function AfterScoped(o: Scoped, p: Scoped): Scoped {
    Scoped(p.bound, p.raised, o.sent + p.sent, o.calls + p.calls)
  }

  /**
   The bindings of a body read as lexical scopes: what `Bind` gives is in scope until the innermost
   `With` around it ends, and what `With` gives is in scope inside it.
   */
  function Scopes(body: Body, bound: seq<Context>): (o: Scoped)
    ensures forall e :: e in o.sent ==> Size(e.job.body) < Size(body)
  {
    match body
    case Skip => Scoped(bound, false, [], [])
    case Bind(given) => Scoped(bound + [Now(given, bound)], false, [], [])
    case With(given, inner) => Scopes(inner, bound + [Now(given, bound)]).(bound := bound)
    case Then(first, second) =>
      var o := Scopes(first, bound);
      if o.raised then o else AfterScoped(o, Scopes(second, o.bound))
    case Raise => Scoped(bound, true, [], [])
    case Attempt(tried, handler) =>
      var o := Scopes(tried, bound);
      if o.raised then AfterScoped(o, Scopes(handler, o.bound)) else o
    case Enqueue(job) => Scoped(bound, false, [Enqueued(job, Latest(bound, WORK_UNIT))], [])
    case Call => Scoped(bound, false, [], [bound])
  }

  lemma OneMoreBinding(ctx: Option<Context>, bound: seq<Context>, given: Context)
    requires ReadsAs(ctx, bound)
    ensures ReadsAs(Some(Merge(ctx, given)), bound + [given])
  {
    assert (bound + [given])[..|bound|] == bound;
  }

  /** The messages of `xs`, each with the work unit in scope as its header. */
  ghost predicate SentAs(sent: seq<Job>, xs: seq<Enqueued>) {
    |sent| == |xs| &&
    forall i :: 0 <= i < |xs| ==> sent[i] == xs[i].job.(header := Published(xs[i].job.header, xs[i].bound))
  }

  /** Every call is made in the context that its scope reads as. */
  ghost predicate CalledAs(calls: seq<Option<Context>>, scopes: seq<seq<Context>>) {
    |calls| == |scopes| && forall i :: 0 <= i < |calls| ==> ReadsAs(calls[i], scopes[i])
  }

  ghost predicate Agrees(o: Outcome, p: Scoped) {
    o.raised == p.raised && ReadsAs(o.ctx, p.bound) && SentAs(o.sent, p.sent) && CalledAs(o.calls, p.calls)
  }

  lemma AgreeInTurn(o: Outcome, p: Scoped, more: Outcome, moreScoped: Scoped)
    requires Agrees(o, p) && Agrees(more, moreScoped)
    ensures Agrees(After(o, more), AfterScoped(p, moreScoped))
  {
    hide ReadsAs;
  }

  /**
   Merging contexts and resetting tokens comes to the same as reading the scopes: every message and
   every call sees, field by field, the latest binding in scope that gives the field.
   */
  lemma {:induction false} ScopesAgree(body: Body, ctx: Option<Context>, bound: seq<Context>)
    requires ReadsAs(ctx, bound)
    ensures Agrees(Exec(body, ctx), Scopes(body, bound))
  {
    assert UnitOf(ctx) == Latest(bound, WORK_UNIT);
    hide ReadsAs, Latest, SentAs, CalledAs, Merge, Given, UnitOf;
    match body
    case Bind(given) =>
      OneMoreBinding(ctx, bound, Now(given, bound));
      NothingYet();
    case With(given, inner) =>
      OneMoreBinding(ctx, bound, Now(given, bound));
      ScopesAgree(inner, Some(Merge(ctx, Now(given, bound))), bound + [Now(given, bound)]);
    case Then(first, second) =>
      var o, p := Exec(first, ctx), Scopes(first, bound);
      ScopesAgree(first, ctx, bound);
      if !o.raised {
        ScopesAgree(second, o.ctx, p.bound);
        AgreeInTurn(o, p, Exec(second, o.ctx), Scopes(second, p.bound));
      }
    case Attempt(tried, handler) =>
      var o, p := Exec(tried, ctx), Scopes(tried, bound);
      ScopesAgree(tried, ctx, bound);
      if o.raised {
        ScopesAgree(handler, o.ctx, p.bound);
        AgreeInTurn(o, p, Exec(handler, o.ctx), Scopes(handler, p.bound));
      }
    case Enqueue(job) =>
      NothingYet();
      OneSent(job, UnitOf(ctx));
    case Call =>
      NothingYet();
      OneCall(ctx, bound);
    case _ =>
      NothingYet();
  }

  lemma NothingYet()
    ensures SentAs([], []) && CalledAs([], [])
  {
  }

  lemma OneSent(job: Job, unit: Option<Id>)
    ensures SentAs([job.(header := Published(job.header, unit))], [Enqueued(job, unit)])
  {
  }

  lemma OneCall(ctx: Option<Context>, bound: seq<Context>)
    requires ReadsAs(ctx, bound)
    ensures CalledAs([ctx], [bound])
  {
    hide ReadsAs;
  }

  /** The binding a task starts in: what its header says. */
  function Outermost(unit: Option<Id>): seq<Context> {
    [BLANK.(workUnit := unit)]
  }

  lemma StartsOutermost(unit: Option<Id>)
    ensures ReadsAs(Some(BLANK.(workUnit := unit)), Outermost(unit))
  {
    assert Outermost(unit)[..0] == [];
  }

  /** What a task does, read off its scopes. */
  lemma TaskScopes(job: Job)
    ensures Agrees(Exec(job.body, StartContext(job)), Scopes(job.body, Outermost(HeaderUnit(job.header))))
  {
    StartsOutermost(HeaderUnit(job.header));
    ScopesAgree(job.body, StartContext(job), Outermost(HeaderUnit(job.header)));
  }

  /**
   A task that is enqueued without a header of its own carries the innermost work unit bound in scope
   where it was sent, and where none is bound, what the sending task carries. A header of its own,
   readable or not, it keeps.
   */
  lemma CarriesTheInnermost(job: Job, i: nat)
    requires i < |Spawned(job)|
    ensures var xs := Scopes(job.body, Outermost(HeaderUnit(job.header))).sent;
            && |xs| == |Spawned(job)|
            && (xs[i].job.header.Missing? ==> HeaderUnit(Spawned(job)[i].header) == xs[i].bound)
            && (!xs[i].job.header.Missing? ==> Spawned(job)[i] == xs[i].job)
  {
    TaskScopes(job);
    hide Exec, Scopes, ReadsAs;
  }

  /**
   Inside a nested context every field it gives is in force and every other is as outside, whatever
   the body does there; afterwards the context is as it was.
   */
  lemma InsideWith(given: Binding, inner: Body, ctx: Option<Context>) returns (inside: Context)
    ensures Overlays(ctx, Given(given, UnitOf(ctx)), inside)
    ensures Exec(With(given, inner), ctx) == Exec(inner, Some(inside)).(ctx := ctx)
  {
    inside := Merge(ctx, Given(given, UnitOf(ctx)));
  }

  /**
   In a task that carries `unit` every message is sent in the scope of that unit, or with it written
   into the header, and so on in every task it leads to. Binding the same unit again is as good as
   not binding; a binding whose scope has ended, or that reaches no message, does not matter.
   */
  ghost predicate Keeps(body: Body, unit: Option<Id>)
    decreases Size(body), 0
  {
    forall e :: e in Scopes(body, Outermost(unit)).sent ==> PassesOn(e, unit)
  }

  /** The message takes over `unit`, and so does all it leads to. */
  ghost predicate PassesOn(e: Enqueued, unit: Option<Id>)
    decreases Size(e.job.body), 1
  {
    HeaderUnit(Published(e.job.header, e.bound)) == unit && Keeps(e.job.body, unit)
  }

  /** The job carries `unit`, and so does all it leads to. */
  ghost predicate Inherits(job: Job, unit: Option<Id>) {
    HeaderUnit(job.header) == unit && Keeps(job.body, unit)
  }

  lemma PassedOn(sent: seq<Job>, xs: seq<Enqueued>, unit: Option<Id>)
    requires SentAs(sent, xs)
    ensures (forall e :: e in xs ==> PassesOn(e, unit)) <==> (forall j :: j in sent ==> Inherits(j, unit))
  {
    hide Keeps;
    assert forall i :: 0 <= i < |xs| ==> (PassesOn(xs[i], unit) <==> Inherits(sent[i], unit));
    hide PassesOn, Inherits, SentAs;
    assert forall i :: 0 <= i < |xs| ==> xs[i] in xs && sent[i] in sent;
  }

  /** Which messages a body sends depends on the work unit alone. */
  lemma {:induction false} OnlyUnitMatters(body: Body, a: Option<Context>, b: Option<Context>)
    requires UnitOf(a) == UnitOf(b)
    ensures var o, p := Exec(body, a), Exec(body, b);
            o.sent == p.sent && o.raised == p.raised && UnitOf(o.ctx) == UnitOf(p.ctx)
  {
    match body
    case With(given, inner) =>
      OnlyUnitMatters(inner, Some(Merge(a, Given(given, UnitOf(a)))), Some(Merge(b, Given(given, UnitOf(b)))));
    case Then(first, second) =>
      OnlyUnitMatters(first, a, b);
      OnlyUnitMatters(second, Exec(first, a).ctx, Exec(first, b).ctx);
    case Attempt(tried, handler) =>
      OnlyUnitMatters(tried, a, b);
      OnlyUnitMatters(handler, Exec(tried, a).ctx, Exec(tried, b).ctx);
    case _ =>
  }

  lemma StartSends(body: Body, unit: Option<Id>)
    ensures SentAs(Exec(body, Some(BLANK.(workUnit := unit))).sent, Scopes(body, Outermost(unit)).sent)
  {
    hide ReadsAs, Latest, Scopes, Exec;
    StartsOutermost(unit);
    ScopesAgree(body, Some(BLANK.(workUnit := unit)), Outermost(unit));
    hide Outermost, SentAs, CalledAs;
  }

  lemma KeepsIsInherited(body: Body, ctx: Option<Context>)
    ensures Keeps(body, UnitOf(ctx)) <==> forall j :: j in Exec(body, ctx).sent ==> Inherits(j, UnitOf(ctx))
  {
    var unit := UnitOf(ctx);
    OnlyUnitMatters(body, ctx, Some(BLANK.(workUnit := unit)));
    hide Exec, Scopes, Outermost, PassesOn, Inherits, SentAs;
    StartSends(body, unit);
    PassedOn(Exec(body, ctx).sent, Scopes(body, Outermost(unit)).sent, unit);
  }

  ghost predicate RootsNamed(queue: seq<Job>) {
    forall j :: j in queue ==> OfRoot(j.body, j.root)
  }

  /** Every task of the chain of `root`, in whatever queue, carries `unit`. */
  ghost predicate ChainCarries(queue: seq<Job>, root: Id, unit: Option<Id>) {
    forall e :: e in Trace(queue) && e.root == root ==> e.carried == unit
  }

  ghost predicate AllInherit(queue: seq<Job>, root: Id, unit: Option<Id>) {
    forall j :: j in queue && j.root == root ==> Inherits(j, unit)
  }

  lemma SpawnedOfRoot(job: Job)
    requires OfRoot(job.body, job.root)
    ensures forall j :: j in Spawned(job) ==> j.root == job.root && OfRoot(j.body, j.root)
  {
    SentWithin(job.body, StartContext(job), job.root, UnitsIn(job.body) + Named(HeaderUnit(job.header)));
  }

  /**
   Over any chain of enqueues every task carries exactly the work unit of the request it goes back
   to, and none if that request had none, if and only if no task of the chain sends a message in the
   scope of another unit. Other chains in the queue may do what they like.
   */
  lemma {:induction false} OriginIsCarried(queue: seq<Job>, root: Id, unit: Option<Id>)
    requires RootsNamed(queue)
    ensures ChainCarries(queue, root, unit) <==> AllInherit(queue, root, unit)
    decreases QueueSize(queue)
  {
    if queue != [] {
      var job := queue[0];
      var entry, rest := EntryOf(job), queue[1..] + Spawned(job);
      assert job in queue && forall j :: j in queue <==> j == job || j in queue[1..];
      SentIsSmaller(job.body, StartContext(job));
      QueueSizeAdds(queue[1..], Spawned(job));
      SpawnedOfRoot(job);
      KeepsIsInherited(job.body, StartContext(job));
      assert Trace(queue) == [entry] + Trace(rest);
      hide Keeps, Exec, OfRoot, Trace, QueueSize, JobSize;
      OriginIsCarried(rest, root, unit);
      assert forall e :: e in Trace(queue) <==> e == entry || e in Trace(rest);
      assert forall j :: j in rest <==> j in queue[1..] || j in Spawned(job);
    }
  }

  /** A billed request: what it enqueues in its call context starts such a chain, and its own context is as before. */
  lemma RequestStartsChain(given: Context, ctx: Option<Context>, body: Body, root: Id)
    requires given.workUnit.Some? && Keeps(body, given.workUnit) && OfRoot(body, root)
    ensures var sent := Exec(With(Binding(given, None), body), ctx).sent;
            RootsNamed(sent) && AllInherit(sent, root, given.workUnit) && forall j :: j in sent ==> j.root == root
    ensures Exec(With(Binding(given, None), body), ctx).ctx == ctx
  {
    var inside := Some(Merge(ctx, given));
    KeepsIsInherited(body, inside);
    SentWithin(body, inside, root, UnitsIn(body) + Named(given.workUnit));
    hide Keeps, Inherits;
    assert Exec(With(Binding(given, None), body), ctx).sent == Exec(body, inside).sent;
  }

  // ----- Bodies that keep what they carry

  /** A binding followed by a message of the task's own. */
  function BindThenSend(b: Binding, job: Job): Body {
    Then(Bind(b), Enqueue(job))
  }

  lemma BindThenSendScopes(b: Binding, job: Job, unit: Option<Id>)
    ensures Scopes(BindThenSend(b, job), Outermost(unit)).sent == [Enqueued(job, Over(Given(b, unit).workUnit, unit))]
  {
    var bound := Outermost(unit);
    var more := bound + [Now(b, bound)];
    assert bound[..0] == [] && more[..1] == bound;
    assert Latest(bound, WORK_UNIT) == unit;
    assert Latest(more, WORK_UNIT) == Over(Given(b, unit).workUnit, unit);
    hide Latest, Outermost;
    assert Scopes(Bind(b), bound) == Scoped(more, false, [], []);
  }

  /**
   A task that binds before it enqueues keeps the unit it carries if and only if the binding leaves
   that unit in force. The tasks' own way, `work_unit_id_or(default)`, always does once there is one.
   */
  lemma RebindingKeeps(b: Binding, job: Job, unit: Option<Id>)
    requires job.header.Missing? && Keeps(job.body, unit)
    ensures Keeps(BindThenSend(b, job), unit) <==> Over(Given(b, unit).workUnit, unit) == unit
    ensures unit.Some? && b.default.Some? ==> Keeps(BindThenSend(b, job), unit)
  {
    var bound := Over(Given(b, unit).workUnit, unit);
    BindThenSendScopes(b, job, unit);
    assert forall e :: e in [Enqueued(job, bound)] <==> e == Enqueued(job, bound);
    hide Scopes;
  }

  /** A nested context that has ended does not count: what is enqueued after it keeps the unit, whatever it billed. */
  lemma FinishedBindingIsNoBinding(elsewhere: Binding, job: Job, unit: Option<Id>)
    requires job.header.Missing? && Keeps(job.body, unit)
    ensures Keeps(Then(With(elsewhere, Skip), Enqueue(job)), unit)
  {
    var bound := Outermost(unit);
    assert bound[..0] == [];
    assert Latest(bound, WORK_UNIT) == unit;
    hide Latest, Outermost;
    assert Scopes(With(elsewhere, Skip), bound) == Scoped(bound, false, [], []);
    assert Scopes(Then(With(elsewhere, Skip), Enqueue(job)), bound).sent == [] + [Enqueued(job, unit)];
  }
}
