/**
 * The attribute list of `Devenv::build` (devenv/src/devenv.rs): the dotted
 * names of every leaf of the evaluated `build` attribute set, or the
 * attributes named on the command line, each under `devenv.`.
 */
module BuildAttrs {
  import opened Common
  import opened Strings

  /** A JSON value as the evaluator prints it; an object keeps its entries in order. */
  datatype Json =
    | Null
    | Bool(b: bool)
    | Number(literal: string)
    | Str(s: string)
    | Array(items: seq<Json>)
    | Object(entries: seq<(string, Json)>)

  datatype BuildError =
    | EvalFailed      // evaluating `build` fails
    | EvalParseFailed // the output of evaluating `build` is not JSON
    | NotAnObject     // it is JSON, but not an object
    | BuildFailed     // the backend fails to build the attributes

  const Devenv: string := "devenv."

  /** `flatten_object`: every leaf below `v`, with its keys appended to `prefix`. */
  function Flatten(prefix: string, v: Json): seq<string>
    decreases v, Width(v)
  {
    match v
    case Object(entries) => FlattenEntries(prefix, entries, 0)
    case _ => [Devenv + prefix]
  }

  /** The `flat_map` over the entries of one object, from entry `i` on. */
  function FlattenEntries(prefix: string, entries: seq<(string, Json)>, i: nat): seq<string>
    requires i <= |entries|
    decreases Object(entries), |entries| - i
  {
    if i == |entries| then []
    else Flatten(prefix + "." + entries[i].0, entries[i].1) + FlattenEntries(prefix, entries, i + 1)
  }

  /** One more than the number of entries of an object, which bounds the entry index. */
  function Width(v: Json): nat
  {
    if v.Object? then |v.entries| + 1 else 0
  }

  /** The outer `flat_map`: each top-level key starts its own prefix. */
  function FlattenTop(entries: seq<(string, Json)>, i: nat): seq<string>
    requires i <= |entries|
    decreases |entries| - i
  {
    if i == |entries| then []
    else Flatten(entries[i].0, entries[i].1) + FlattenTop(entries, i + 1)
  }

  /** Attributes named on the command line, each under `devenv.`. */
  function Explicit(attributes: seq<string>): seq<string>
  {
    seq(|attributes|, i requires 0 <= i < |attributes| => Devenv + attributes[i])
  }

  /**
   * The attributes `build` passes to the backend: the named ones, or when
   * none are named, the leaves of the evaluated `build` output.
   */
  function BuildAttributes(attributes: seq<string>, evalOutput: Option<Json>): (r: Result<seq<string>, BuildError>)
    ensures |attributes| > 0 ==> r == Success(Explicit(attributes))
    ensures |attributes| == 0 && evalOutput.None? ==> r == Failure(EvalParseFailed)
    ensures |attributes| == 0 && evalOutput.Some? && !evalOutput.value.Object? ==> r == Failure(NotAnObject)
  {
    if |attributes| > 0 then Success(Explicit(attributes))
    else match evalOutput
      case None => Failure(EvalParseFailed)
      case Some(Object(entries)) => Success(FlattenTop(entries, 0))
      case Some(_) => Failure(NotAnObject)
  }

  /**
   * `build` once `assemble` has succeeded: evaluate `build` when no attribute
   * is named (`evalOk` says whether that succeeds), then build the attributes
   * in one backend call, whose answer is `built` (`None` when it fails). The
   * result is the list of paths `build` prints.
   */
  function BuildCommand(attributes: seq<string>, evalOk: bool, evalOutput: Option<Json>, built: Option<seq<string>>)
    : (r: Result<seq<string>, BuildError>)
    ensures r.Success? <==> built.Some? && (|attributes| > 0 || (evalOk && evalOutput.Some? && evalOutput.value.Object?))
    ensures r.Success? ==> r.value == built.value
    ensures |attributes| == 0 && !evalOk ==> r == Failure(EvalFailed)
    ensures (BuildAttributes(attributes, evalOutput).Success? && built.None? && (|attributes| > 0 || evalOk)) ==> r == Failure(BuildFailed)
  {
    if |attributes| == 0 && !evalOk then Failure(EvalFailed)
    else match BuildAttributes(attributes, evalOutput)
      case Failure(e) => Failure(e)
      case Success(_) =>
        match built
        case None => Failure(BuildFailed)
        case Some(paths) => Success(paths)
  }

  // ---------------------------------------------------------------------
  // reference: the key chains of the leaves

  /** The key chain of every non-object value below `v`, in order. */
  function Leaves(v: Json): seq<seq<string>>
    decreases v, Width(v)
  {
    match v
    case Object(entries) => EntryLeaves(entries, 0)
    case _ => [[]]
  }

  /** The chains of the entries from entry `i` on. */
  function EntryLeaves(entries: seq<(string, Json)>, i: nat): seq<seq<string>>
    requires i <= |entries|
    decreases Object(entries), |entries| - i
  {
    if i == |entries| then []
    else Under(entries[i].0, Leaves(entries[i].1)) + EntryLeaves(entries, i + 1)
  }

  /** The chains below key `k`. */
  function Under(k: string, chains: seq<seq<string>>): seq<seq<string>>
  {
    seq(|chains|, i requires 0 <= i < |chains| => [k] + chains[i])
  }

  /** `.k1.k2…` for the chain `[k1, k2, …]`. */
  function Dotted(chain: seq<string>): string
  {
    if chain == [] then "" else "." + chain[0] + Dotted(chain[1..])
  }

  /** The attribute names of the chains below `prefix`. */
  function Rendered(prefix: string, chains: seq<seq<string>>): seq<string>
  {
    seq(|chains|, i requires 0 <= i < |chains| => Devenv + prefix + Dotted(chains[i]))
  }

  /** The attribute name of each top-level chain: `devenv.` and the keys joined by `.`. */
  function Named(chains: seq<seq<string>>): seq<string>
  {
    seq(|chains|, i requires 0 <= i < |chains| => Devenv + Join(chains[i], "."))
  }

  // ---------------------------------------------------------------------
  // properties

  lemma RenderedConcat(prefix: string, a: seq<seq<string>>, b: seq<seq<string>>)
    ensures Rendered(prefix, a + b) == Rendered(prefix, a) + Rendered(prefix, b)
  {
  }

  lemma RenderedUnder(prefix: string, k: string, chains: seq<seq<string>>)
    ensures Rendered(prefix, Under(k, chains)) == Rendered(prefix + "." + k, chains)
  {
    forall i | 0 <= i < |chains|
      ensures Rendered(prefix, Under(k, chains))[i] == Rendered(prefix + "." + k, chains)[i]
    {
      var c := chains[i];
      assert Under(k, chains)[i] == [k] + c;
      assert ([k] + c)[1..] == c;
      assert Dotted([k] + c) == "." + k + Dotted(c);
    }
  }

  /** `flatten_object` yields exactly one name per leaf: `devenv.`, the prefix, and the leaf's keys. */
  lemma {:induction false} FlattenIsLeaves(prefix: string, v: Json)
    ensures Flatten(prefix, v) == Rendered(prefix, Leaves(v))
    decreases v, Width(v)
  {
    match v
    case Object(entries) => FlattenEntriesIsLeaves(prefix, entries, 0);
    case _ =>
      assert Dotted([]) == "";
      assert Devenv + prefix + "" == Devenv + prefix;
  }

  lemma {:induction false} FlattenEntriesIsLeaves(prefix: string, entries: seq<(string, Json)>, i: nat)
    requires i <= |entries|
    ensures FlattenEntries(prefix, entries, i) == Rendered(prefix, EntryLeaves(entries, i))
    decreases Object(entries), |entries| - i
  {
    if i < |entries| {
      var k := entries[i].0;
      var v := entries[i].1;
      FlattenIsLeaves(prefix + "." + k, v);
      FlattenEntriesIsLeaves(prefix, entries, i + 1);
      RenderedUnder(prefix, k, Leaves(v));
      RenderedConcat(prefix, Under(k, Leaves(v)), EntryLeaves(entries, i + 1));
    }
  }

  /** A key followed by the dotted rest of a chain is the whole chain joined by `.`. */
  lemma {:induction false} JoinDotted(k: string, chain: seq<string>)
    ensures k + Dotted(chain) == Join([k] + chain, ".")
    decreases chain
  {
    if chain != [] {
      JoinDotted(chain[0], chain[1..]);
      assert [chain[0]] + chain[1..] == chain;
      assert ([k] + chain)[1..] == chain;
    }
  }

  lemma NamedUnder(k: string, chains: seq<seq<string>>)
    ensures Named(Under(k, chains)) == Rendered(k, chains)
  {
    forall i | 0 <= i < |chains| ensures Named(Under(k, chains))[i] == Rendered(k, chains)[i] {
      JoinDotted(k, chains[i]);
    }
  }

  /**
   * The leaves of the top-level object name the attributes: one name per
   * leaf, `devenv.` followed by the leaf's keys joined by `.`, in order.
   */
  lemma {:induction false} FlattenTopIsLeaves(entries: seq<(string, Json)>, i: nat)
    requires i <= |entries|
    ensures FlattenTop(entries, i) == Named(EntryLeaves(entries, i))
    decreases |entries| - i
  {
    if i < |entries| {
      var k := entries[i].0;
      var v := entries[i].1;
      FlattenIsLeaves(k, v);
      NamedUnder(k, Leaves(v));
      FlattenTopIsLeaves(entries, i + 1);
      assert Named(Under(k, Leaves(v)) + EntryLeaves(entries, i + 1))
          == Named(Under(k, Leaves(v))) + Named(EntryLeaves(entries, i + 1));
    }
  }

  /** Every key chain of an object has at least its top key. */
  lemma {:induction false} ChainsNonEmpty(entries: seq<(string, Json)>, i: nat)
    requires i <= |entries|
    ensures forall j :: 0 <= j < |EntryLeaves(entries, i)| ==> |EntryLeaves(entries, i)[j]| >= 1
    decreases |entries| - i
  {
    if i < |entries| {
      ChainsNonEmpty(entries, i + 1);
      var a := Under(entries[i].0, Leaves(entries[i].1));
      var b := EntryLeaves(entries, i + 1);
      assert EntryLeaves(entries, i) == a + b;
      forall j | 0 <= j < |a + b| ensures |(a + b)[j]| >= 1 {
        if j >= |a| { assert (a + b)[j] == b[j - |a|]; }
      }
    }
  }

  /** Every attribute `build` passes on starts with `devenv.`. */
  lemma BuildAttributesPrefixed(attributes: seq<string>, evalOutput: Option<Json>)
    requires BuildAttributes(attributes, evalOutput).Success?
    ensures var names := BuildAttributes(attributes, evalOutput).value;
            forall i :: 0 <= i < |names| ==> StartsWith(names[i], Devenv)
  {
    var names := BuildAttributes(attributes, evalOutput).value;
    if |attributes| == 0 {
      FlattenTopIsLeaves(evalOutput.value.entries, 0);
    }
    forall i | 0 <= i < |names| ensures StartsWith(names[i], Devenv) {
      assert names[i][..|Devenv|] == Devenv;
    }
  }

  /** When attributes are named, `build` does not evaluate anything: the evaluation cannot change the outcome. */
  lemma NamedSkipsEval(attributes: seq<string>, ok1: bool, out1: Option<Json>, ok2: bool, out2: Option<Json>, built: Option<seq<string>>)
    requires |attributes| > 0
    ensures BuildCommand(attributes, ok1, out1, built) == BuildCommand(attributes, ok2, out2, built)
  {
  }

  /** Named attributes map one-to-one, in order, to `devenv.<attr>`. */
  lemma ExplicitOneToOne(attributes: seq<string>)
    ensures |Explicit(attributes)| == |attributes|
    ensures forall i :: 0 <= i < |attributes| ==> Explicit(attributes)[i][|Devenv|..] == attributes[i]
  {
  }

  /**
   * An empty object anywhere contributes no attribute, and a leaf exactly one;
   * the last clause is a worked example, an object holding only an empty object.
   */
  lemma EmptyAndLeaf(prefix: string, v: Json)
    ensures Flatten(prefix, Object([])) == []
    ensures !v.Object? ==> Flatten(prefix, v) == [Devenv + prefix]
    ensures Flatten(prefix, Object([("k", Object([]))])) == []
  {
  }

  /** The number of attributes is the number of leaves. */
  lemma FlattenCount(prefix: string, v: Json)
    ensures |Flatten(prefix, v)| == |Leaves(v)|
  {
    FlattenIsLeaves(prefix, v);
  }
}
