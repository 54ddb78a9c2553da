/** `pool.info`'s `Run`: check the arguments, pick the property paths by
    output mode, resolve every argument with the finder, and fetch all
    resolved pools with one call to the property collector. The client, the
    finder and the collector are parameters; `Run` returns, besides its
    result, the log of the calls it made to them. */
module PoolInfo {
  import opened Wrappers
  import opened PoolTypes

  /** A call to a collaborator: obtaining the client (`cmd.Client`), obtaining
      the finder (`cmd.Finder`), one `ResourcePoolList` lookup, or one
      `Retrieve` of the property collector. */
  datatype Call =
    | Connect
    | OpenFinder
    | Find(pattern: string)
    | Retrieve(refs: seq<ManagedObjectReference>, props: seq<string>)

  /** The property paths the tabular report reads. */
  const ReportPaths: seq<string> :=
    ["name", "config.cpuAllocation", "config.memoryAllocation", "runtime.cpu", "runtime.memory"]

  /** The property paths requested: none, which the collector reads as "all
      properties", in JSON mode; the report's five paths otherwise. */
  function PropertyPaths(json: bool): (props: seq<string>)
    ensures |props| == 0 <==> json
    ensures !json ==> props == ReportPaths
  {
    if json then [] else ReportPaths
  }

  /** What one `ResourcePoolList` lookup answers: the objects the pattern
      matched, or an error. */
  type Answer = Result<seq<PoolObject>, Error>

  /** What resolving the arguments in order yields, given the answer of each
      lookup in turn: the concatenation of all their objects, or the first
      error. */
  function ResolveAll(answers: seq<Answer>): (r: Answer)
    ensures r.Success? ==> forall j :: 0 <= j < |answers| ==> answers[j].Success?
  {
    if answers == [] then Success([])
    else
      match answers[0]
      case Failure(e) => Failure(e)
      case Success(objects) =>
        match ResolveAll(answers[1..])
        case Failure(e) => Failure(e)
        case Success(rest) => Success(objects + rest)
  }

  /** How many lookups resolving makes: one per argument, up to and
      including the first that fails. */
  function Lookups(answers: seq<Answer>): (n: nat)
    ensures n <= |answers|
    ensures n == 0 <==> answers == []
    ensures forall j :: 0 <= j < n - 1 ==> answers[j].Success?
    ensures 0 < n < |answers| ==> answers[n - 1].Failure?
  {
    if answers == [] then 0
    else if answers[0].Failure? then 1
    else 1 + Lookups(answers[1..])
  }

  /** One `Find` call per pattern, in order. */
  function Finds(patterns: seq<string>): (calls: seq<Call>)
    ensures |calls| == |patterns|
    ensures forall i :: 0 <= i < |patterns| ==> calls[i] == Find(patterns[i])
  {
    if patterns == [] then [] else [Find(patterns[0])] + Finds(patterns[1..])
  }

  /** Resolving `a + b` resolves `a`, then, if that succeeded, `b`, and
      concatenates the results; nothing is deduplicated. */
  lemma {:induction false} ResolveAllAppend(a: seq<Answer>, b: seq<Answer>)
    ensures ResolveAll(a + b) ==
      match ResolveAll(a)
      case Failure(e) => Failure(e)
      case Success(x) =>
        match ResolveAll(b)
        case Failure(e) => Failure(e)
        case Success(y) => Success(x + y)
  {
    if a == [] {
      assert a + b == b;
      match ResolveAll(b)
      case Failure(e) =>
      case Success(y) => assert [] + y == y;
    } else {
      assert (a + b)[0] == a[0];
      assert (a + b)[1..] == a[1..] + b;
      ResolveAllAppend(a[1..], b);
      match a[0]
      case Failure(e) =>
      case Success(x) =>
        match ResolveAll(a[1..])
        case Failure(e) =>
        case Success(y) =>
          match ResolveAll(b)
          case Failure(e) =>
          case Success(z) => assert x + (y + z) == (x + y) + z;
    }
  }

  /** The lookups of `a + b` are those of `a`, followed by those of `b` only
      when `a` resolved. */
  lemma {:induction false} LookupsAppend(a: seq<Answer>, b: seq<Answer>)
    ensures Lookups(a + b) == Lookups(a) + (if ResolveAll(a).Success? then Lookups(b) else 0)
  {
    if a == [] {
      assert a + b == b;
    } else {
      assert (a + b)[0] == a[0];
      assert (a + b)[1..] == a[1..] + b;
      LookupsAppend(a[1..], b);
    }
  }

  /** Resolving one argument is one lookup, whose answer is the result. */
  lemma ResolveOne(answer: Answer)
    ensures ResolveAll([answer]) == answer
    ensures Lookups([answer]) == 1
  {
    assert [answer][1..] == [];
    match answer
    case Failure(e) =>
    case Success(x) => assert x + [] == x;
  }

  /** When lookup `k` is the first that fails, resolution fails with that
      very error, after exactly the lookups 0 to `k`. */
  lemma {:induction false} ResolveAllFirstError(answers: seq<Answer>, k: nat)
    requires k < |answers|
    requires forall j :: 0 <= j < k ==> answers[j].Success?
    requires answers[k].Failure?
    ensures ResolveAll(answers) == Failure(answers[k].error)
    ensures Lookups(answers) == k + 1
  {
    if k > 0 {
      assert forall j :: 0 <= j < k - 1 ==> answers[1..][j] == answers[j + 1];
      ResolveAllFirstError(answers[1..], k - 1);
    }
  }

  /** When resolution fails, the last lookup made is the first that failed,
      and its error is the result. */
  lemma {:induction false} ResolveAllFails(answers: seq<Answer>)
    requires ResolveAll(answers).Failure?
    ensures 0 < Lookups(answers) <= |answers|
    ensures answers[Lookups(answers) - 1] == Failure(ResolveAll(answers).error)
    ensures forall j :: 0 <= j < Lookups(answers) - 1 ==> answers[j].Success?
  {
    if answers[0].Success? {
      ResolveAllFails(answers[1..]);
    }
  }

  /** Resolution succeeds exactly when every lookup succeeds, and then every
      argument is looked up once. */
  lemma {:induction false} ResolveAllSucceeds(answers: seq<Answer>)
    ensures ResolveAll(answers).Success? <==> forall j :: 0 <= j < |answers| ==> answers[j].Success?
    ensures ResolveAll(answers).Success? ==> Lookups(answers) == |answers|
  {
    if answers != [] {
      ResolveAllSucceeds(answers[1..]);
      assert forall j :: 1 <= j < |answers| ==> answers[j] == answers[1..][j - 1];
    }
  }

  /** `o.Reference()` for every object, in order. */
  function RefsOf(objects: seq<PoolObject>): (refs: seq<ManagedObjectReference>)
    ensures |refs| == |objects|
    ensures forall i :: 0 <= i < |objects| ==> refs[i] == objects[i].reference
  {
    if objects == [] then [] else [objects[0].reference] + RefsOf(objects[1..])
  }

  /** One more lookup after a prefix that resolved. */
  lemma ResolveSnoc(answers: seq<Answer>, i: nat)
    requires i < |answers| && ResolveAll(answers[..i]).Success?
    requires Lookups(answers[..i]) == i
    ensures ResolveAll(answers[..i + 1]) ==
      match answers[i]
      case Failure(e) => Failure(e)
      case Success(y) => Success(ResolveAll(answers[..i]).value + y)
    ensures Lookups(answers[..i + 1]) == i + 1
  {
    assert answers[..i + 1] == answers[..i] + [answers[i]];
    ResolveOne(answers[i]);
    ResolveAllAppend(answers[..i], [answers[i]]);
    LookupsAppend(answers[..i], [answers[i]]);
  }

  /** After a failing lookup nothing more is looked up. */
  lemma ResolveStop(answers: seq<Answer>, i: nat)
    requires i < |answers| && ResolveAll(answers[..i + 1]).Failure?
    ensures ResolveAll(answers) == ResolveAll(answers[..i + 1])
    ensures Lookups(answers) == Lookups(answers[..i + 1])
  {
    assert answers == answers[..i + 1] + answers[i + 1..];
    ResolveAllAppend(answers[..i + 1], answers[i + 1..]);
    LookupsAppend(answers[..i + 1], answers[i + 1..]);
  }

  /** One more argument adds one `Find` call at the end. */
  lemma FindsSnoc(args: seq<string>, i: nat)
    requires i < |args|
    ensures Finds(args[..i + 1]) == Finds(args[..i]) + [Find(args[i])]
  {
  }

  /** The loop over the arguments in `info.Run`: one lookup per argument,
      appending every argument's objects, until the first lookup that
      fails. Returns the outcome and the `Find` calls made. */
  method Resolve(args: seq<string>, answers: seq<Answer>) returns (r: Answer, calls: seq<Call>)
    requires |answers| == |args|
    ensures r == ResolveAll(answers)
    ensures calls == Finds(args[..Lookups(answers)])
  {
    var objects: seq<PoolObject> := [];
    calls := [];
    var i := 0;
    while i < |args|
      invariant 0 <= i <= |args|
      invariant ResolveAll(answers[..i]) == Success(objects)
      invariant Lookups(answers[..i]) == i
      invariant calls == Finds(args[..i])
    {
      ResolveSnoc(answers, i);
      FindsSnoc(args, i);
      calls := calls + [Find(args[i])];
      var found := answers[i];
      if found.Failure? {
        ResolveStop(answers, i);
        return Failure(found.error), calls;
      }
      objects := objects + found.value;
      i := i + 1;
    }
    assert answers[..i] == answers;
    assert args[..i] == args;
    r := Success(objects);
  }

  /** `info.Run`. With arguments, and once the client and the finder are
      obtained, the arguments are resolved in order; `answers[i]` is what the
      finder answers to the lookup of `args[i]`. The first lookup error is
      returned and nothing is retrieved; when nothing was resolved there is
      no retrieval; otherwise there is exactly one, for the references of
      all resolved objects in order, and its error is returned unchanged.
      On success the result is what `WriteResult` is given. */
  method Run(args: seq<string>, json: bool, clientErr: Option<Error>, finderErr: Option<Error>,
             answers: seq<Answer>,
             retrieve: (seq<ManagedObjectReference>, seq<string>) -> Result<seq<ResourcePool>, Error>)
    returns (out: Result<InfoResult, Error>, log: seq<Call>)
    requires |answers| == |args|
    ensures |args| == 0 ==> out == Failure(ErrHelp) && log == []
    ensures |args| > 0 && clientErr.Some? ==> out == Failure(clientErr.value) && log == [Connect]
    ensures |args| > 0 && clientErr.None? && finderErr.Some? ==>
      out == Failure(finderErr.value) && log == [Connect, OpenFinder]
    ensures |args| > 0 && clientErr.None? && finderErr.None? ==>
      var calls := [Connect, OpenFinder] + Finds(args[..Lookups(answers)]);
      match ResolveAll(answers)
      case Failure(e) => out == Failure(e) && log == calls
      case Success(objects) =>
        if objects == [] then
          out == Success(InfoResult([], [])) && log == calls
        else
          var refs := RefsOf(objects);
          && log == calls + [Retrieve(refs, PropertyPaths(json))]
          && out == match retrieve(refs, PropertyPaths(json))
                    case Failure(e) => Failure(e)
                    case Success(pools) => Success(InfoResult(pools, objects))
  {
    if |args| == 0 {
      return Failure(ErrHelp), [];
    }
    log := [Connect];
    if clientErr.Some? {
      return Failure(clientErr.value), log;
    }
    log := log + [OpenFinder];
    if finderErr.Some? {
      return Failure(finderErr.value), log;
    }

    var props := PropertyPaths(json);

    var resolved, finds := Resolve(args, answers);
    log := log + finds;
    if resolved.Failure? {
      return Failure(resolved.error), log;
    }
    var objects := resolved.value;

    var pools: seq<ResourcePool> := [];
    if |objects| != 0 {
      var refs: seq<ManagedObjectReference> := [];
      for j := 0 to |objects|
        invariant |refs| == j
        invariant forall k :: 0 <= k < j ==> refs[k] == objects[k].reference
      {
        refs := refs + [objects[j].reference];
      }
      assert refs == RefsOf(objects);
      log := log + [Retrieve(refs, props)];
      var fetched := retrieve(refs, props);
      if fetched.Failure? {
        return Failure(fetched.error), log;
      }
      pools := fetched.value;
    }
    out := Success(InfoResult(pools, objects));
  }
}
