/** Plan validation: planner output becomes task rows, or errors to act on. */
module Plan {
  import opened Graphs
  import Text
  import opened Wrappers

  type Id = string

  // A parsed JSON array element.  `id` is the string form of the element's own id,
  // or of its position when it is no object or its id is missing or falsy.  The
  // text fields are "" when the value is missing or falsy.
  datatype Item =
    | Other(id: Id)
    | Object(id: Id, title: string, prompt: string, dependsOn: DependsOn, model: Option<string>)

  // A missing or falsy depends_on is the empty list.
  datatype DependsOn = Listed(ids: seq<Id>) | NotAList

  datatype Parsed = InvalidJson | NotAnArray | Items(items: seq<Item>)

  datatype Row = Row(id: Id, title: string, prompt: string, dependsOn: seq<Id>, model: Option<string>)

  datatype Fault =
    | NotAnObjectAtAll
    | MissingText
    | DependsOnNotAList
    | UnknownDependency(dependency: Id)
    | ModelNotAllowed(model: string)
    | DuplicateId(id: Id)

  datatype PlanError = NotJson | NotANonEmptyArray | OfItem(item: nat, fault: Fault) | HasCycle

  function Ids(items: seq<Item>): set<Id>
  {
    set item | item in items :: item.id
  }

  function Dependencies(item: Item): seq<Id>
  {
    if item.Object? && item.dependsOn.Listed? then item.dependsOn.ids else []
  }

  /******* What each error means *******/

  ghost predicate UsedBefore(items: seq<Item>, i: nat, id: Id)
    requires i <= |items|
  {
    exists j :: 0 <= j < i && items[j].Object? && items[j].id == id
  }

  // Item `i` has the defect that `fault` names.
  ghost predicate Faulty(items: seq<Item>, allowed: set<string>, i: nat, fault: Fault)
    requires i < |items|
  {
    match fault
    case NotAnObjectAtAll => items[i].Other?
    case MissingText => items[i].Object? && (Text.AllSpace(items[i].title) || Text.AllSpace(items[i].prompt))
    case DependsOnNotAList => items[i].Object? && items[i].dependsOn.NotAList?
    case UnknownDependency(d) => d in Dependencies(items[i]) && d !in Ids(items)
    case ModelNotAllowed(model) => items[i].Object? && items[i].model == Some(model) && model !in allowed
    case DuplicateId(id) => items[i].Object? && items[i].id == id && UsedBefore(items, i, id)
  }

  // The order in which the faults of one item are reported.
  function Rank(fault: Fault): nat
  {
    match fault
    case NotAnObjectAtAll => 0
    case MissingText => 1
    case DependsOnNotAList => 2
    case UnknownDependency(_) => 3
    case ModelNotAllowed(_) => 4
    case DuplicateId(_) => 5
  }

  // Each kind of fault comes once, but for the unknown dependencies.
  ghost predicate InRank(a: Fault, b: Fault)
  {
    Rank(a) < Rank(b) || (a.UnknownDependency? && b.UnknownDependency?)
  }

  ghost predicate Ranked(faults: seq<Fault>)
  {
    forall j, k :: 0 <= j < k < |faults| ==> InRank(faults[j], faults[k])
  }

  // The errors are reported item by item, and a cycle last.
  ghost predicate Reported(errors: seq<PlanError>)
  {
    forall j, k :: 0 <= j < k < |errors| ==>
      errors[j].OfItem? && (errors[k].OfItem? ==>
        errors[j].item < errors[k].item ||
        (errors[j].item == errors[k].item && InRank(errors[j].fault, errors[k].fault)))
  }

  // One of the first `n` items has the defect.
  ghost predicate FaultAmong(items: seq<Item>, allowed: set<string>, n: nat, e: PlanError)
    requires n <= |items|
  {
    e.OfItem? && e.item < n && Faulty(items, allowed, e.item, e.fault)
  }

  ghost predicate Defect(items: seq<Item>, allowed: set<string>, e: PlanError)
  {
    FaultAmong(items, allowed, |items|, e) || (e == HasCycle && !Acyclic(DependencyGraph(items, |items|)))
  }

  // The dependency graph of the first `n` items, as the dictionary built from
  // their rows: a later row with the same id replaces an earlier one.
  ghost function DependencyGraph(items: seq<Item>, n: nat): map<Id, seq<Id>>
    requires n <= |items|
  {
    if n == 0 then map[]
    else if items[n - 1].Other? then DependencyGraph(items, n - 1)
    else DependencyGraph(items, n - 1)[items[n - 1].id := Dependencies(items[n - 1])]
  }

  // A plan without a single defect.
  ghost predicate Sound(items: seq<Item>, allowed: set<string>)
  {
    && items != []
    && (forall e :: !Defect(items, allowed, e))
  }

  // The row a sound item becomes.
  ghost function RowOf(items: seq<Item>, i: nat): Row
    requires i < |items| && items[i].Object?
  {
    Row(items[i].id, Text.Collapse(items[i].title), Text.Strip(items[i].prompt),
        Dependencies(items[i]), items[i].model)
  }

  // The row has the item's id, dependencies and model, all words of its title on one
  // line, and its prompt without the white space around it.
  ghost predicate RowFor(item: Item, row: Row)
  {
    && item.Object? && row.id == item.id && row.model == item.model
    && item.dependsOn.Listed? && row.dependsOn == item.dependsOn.ids
    && Text.Collapses(item.title, row.title) && Text.Trims(item.prompt, row.prompt)
    && row.title != "" && row.prompt != ""
  }

  /******* Depth-first search *******/

  ghost function Nodes(g: map<Id, seq<Id>>): set<Id>
  {
    g.Keys + set n, d | n in g && d in g[n] :: d
  }

  // `path` is the stack, outermost call first; `finished` are the nodes whose
  // call returned False, in that order.
  ghost predicate Searching(g: map<Id, seq<Id>>, seen: set<Id>, stack: set<Id>, path: seq<Id>, finished: seq<Id>)
  {
    && stack == (set n | n in path)
    && seen == stack + (set n | n in finished)
    && (forall n :: n in path ==> n !in finished)
    && (forall i, j :: 0 <= i < j < |path| ==> path[i] != path[j])
    && Walk(g, path)
    && seen <= Nodes(g)
    && Topological(g, finished)
  }

  lemma {:induction false} Pushed(g: map<Id, seq<Id>>, seen: set<Id>, stack: set<Id>, path: seq<Id>,
                                  finished: seq<Id>, node: Id)
    requires Searching(g, seen, stack, path, finished)
    requires node in Nodes(g) && node !in seen && (path != [] ==> node in Targets(g, path[|path| - 1]))
    ensures Searching(g, seen + {node}, stack + {node}, path + [node], finished)
  {
  }

  lemma {:induction false} Popped(g: map<Id, seq<Id>>, seen: set<Id>, stack: set<Id>, path: seq<Id>,
                                  finished: seq<Id>, node: Id)
    requires Searching(g, seen, stack, path + [node], finished)
    requires forall d :: d in Targets(g, node) ==> d in finished
    ensures Searching(g, seen, stack - {node}, path, finished + [node])
  {
    var p, f := path + [node], finished + [node];
    assert forall n :: n in p <==> n in path || n == node;
    assert forall n :: n in f <==> n in finished || n == node;
    assert node == p[|path|];
    forall k | 0 <= k < |path| ensures path[k] != node {
      assert p[k] != p[|path|];
    }
    forall i, j | 0 <= i < j < |path| ensures path[i] != path[j] {
      assert p[i] != p[j];
    }
    forall i | 0 <= i < |path| - 1 ensures path[i] in g && path[i + 1] in g[path[i]] {
      assert p[i] in g && p[i + 1] in g[p[i]];
    }
    forall i, d | 0 <= i < |f| && d in Targets(g, f[i]) ensures d in f[..i] {
      assert i < |finished| ==> f[i] == finished[i] && f[..i] == finished[..i];
      assert i == |finished| ==> f[..i] == finished;
    }
  }

  lemma {:induction false} TargetsAreNodes(g: map<Id, seq<Id>>, n: Id, d: Id)
    requires d in Targets(g, n)
    ensures d in Nodes(g)
  {
  }

  class CycleFinder {
    const graph: map<Id, seq<Id>>
    var seen: set<Id>
    var stack: set<Id>
    ghost var path: seq<Id>
    ghost var finished: seq<Id>

    constructor (graph: map<Id, seq<Id>>)
      ensures this.graph == graph && Consistent() && path == [] && finished == []
    {
      this.graph := graph;
      seen, stack, path, finished := {}, {}, [], [];
    }

    ghost predicate Consistent()
      reads this
    {
      Searching(graph, seen, stack, path, finished)
    }

    // Called for a root, or for a target of the node on top of the stack.
    ghost predicate Callable(node: Id)
      reads this
    {
      node in Nodes(graph) && (path != [] ==> node in Targets(graph, path[|path| - 1]))
    }

    method Visit(node: Id) returns (found: bool)
      requires Consistent() && Callable(node)
      modifies this
      ensures found ==> !Acyclic(graph)
      ensures !found ==> Consistent() && path == old(path) && old(finished) <= finished && node in finished
      ensures old(seen) <= seen
      decreases Nodes(graph) - seen
    {
      if node in stack {
        CloseCycle(graph, path, node);
        return true;
      }
      if node in seen {
        return false;
      }
      Pushed(graph, seen, stack, path, finished, node);
      seen, stack, path := seen + {node}, stack + {node}, path + [node];
      var targets := Targets(graph, node);
      for i := 0 to |targets|
        invariant Consistent() && path == old(path) + [node] && old(finished) <= finished
        invariant old(seen) + {node} <= seen
        invariant forall d :: d in targets[..i] ==> d in finished
      {
        TargetsAreNodes(graph, node, targets[i]);
        ghost var before := finished;
        var f := Visit(targets[i]);
        if f {
          return true;
        }
        assert finished == before + finished[|before|..];
        assert targets[..i + 1] == targets[..i] + [targets[i]];
      }
      Popped(graph, seen, stack, old(path), finished, node);
      stack, path, finished := stack - {node}, old(path), finished + [node];
      found := false;
    }

    // `any(visit(n) for n in graph)`
    method Search() returns (found: bool)
      requires Consistent() && path == [] && finished == []
      modifies this
      ensures found <==> !Acyclic(graph)
      ensures !found ==> Topological(graph, finished) && forall n :: n in graph ==> n in finished
    {
      var todo := graph.Keys;
      while todo != {}
        invariant Consistent() && path == [] && todo <= graph.Keys
        invariant forall n :: n in graph && n !in todo ==> n in finished
        decreases |todo|
      {
        var n :| n in todo;
        todo := todo - {n};
        ghost var before := finished;
        found := Visit(n);
        if found {
          return;
        }
        assert finished == before + finished[|before|..];
      }
      OrderedIsAcyclic(graph, finished);
      found := false;
    }
  }

  // Meeting a node of the stack again closes a cycle through the stack.
  lemma {:induction false} CloseCycle(g: map<Id, seq<Id>>, path: seq<Id>, node: Id)
    requires Walk(g, path) && node in path && node in Targets(g, path[|path| - 1])
    ensures !Acyclic(g)
  {
    var i :| 0 <= i < |path| && path[i] == node;
    var p := path[i..] + [node];
    forall k | 0 <= k < |p| - 1 ensures p[k + 1] in Targets(g, p[k]) {
      assert p[k] == path[i + k];
      if k + 1 < |p| - 1 {
        assert path[(i + k) + 1] in Targets(g, path[i + k]);
      }
    }
    assert Cycle(g, p);
  }

  method HasCycleIn(rows: seq<Row>) returns (found: bool)
    ensures found <==> !Acyclic(GraphOf(rows))
  {
    var graph := map[];
    for i := 0 to |rows|
      invariant graph == GraphOf(rows[..i])
    {
      assert rows[..i + 1][..i] == rows[..i];
      graph := graph[rows[i].id := rows[i].dependsOn];
    }
    assert rows[..|rows|] == rows;
    var finder := new CycleFinder(graph);
    found := finder.Search();
  }

  // The dictionary built from rows: a later row replaces an earlier one of the
  // same id.
  ghost function GraphOf(rows: seq<Row>): map<Id, seq<Id>>
  {
    if rows == [] then map[]
    else GraphOf(rows[..|rows| - 1])[rows[|rows| - 1].id := rows[|rows| - 1].dependsOn]
  }

  lemma {:induction false} GraphShape(rows: seq<Row>)
    ensures forall row :: row in rows ==> row.id in GraphOf(rows)
    ensures forall t :: t in GraphOf(rows) ==>
            exists row :: row in rows && row.id == t && row.dependsOn == GraphOf(rows)[t]
  {
    if rows != [] {
      var front, last := rows[..|rows| - 1], rows[|rows| - 1];
      GraphShape(front);
      assert rows == front + [last];
      assert last in rows;
    }
  }

  /******* Validation *******/

  // The rows appended for the first `n` items, faulty ones included.
  ghost function RowsUpTo(items: seq<Item>, allowed: set<string>, n: nat): seq<Row>
    requires n <= |items|
  {
    if n == 0 then []
    else if items[n - 1].Other? then RowsUpTo(items, allowed, n - 1)
    else
      var item := items[n - 1];
      var model := if item.model.Some? && item.model.value !in allowed then None else item.model;
      RowsUpTo(items, allowed, n - 1) + [RowOf(items, n - 1).(model := model)]
  }

  lemma {:induction false} GraphOfRows(items: seq<Item>, allowed: set<string>, n: nat)
    requires n <= |items|
    ensures GraphOf(RowsUpTo(items, allowed, n)) == DependencyGraph(items, n)
  {
    if n > 0 {
      GraphOfRows(items, allowed, n - 1);
      var rows := RowsUpTo(items, allowed, n);
      if items[n - 1].Object? {
        assert rows[..|rows| - 1] == RowsUpTo(items, allowed, n - 1);
      }
    }
  }

  // Without faults an item becomes its row, and the next row is appended.
  lemma {:induction false} CleanRow(items: seq<Item>, allowed: set<string>, n: nat)
    requires n < |items| && forall f :: !Faulty(items, allowed, n, f)
    ensures items[n].Object?
    ensures RowsUpTo(items, allowed, n + 1) == RowsUpTo(items, allowed, n) + [RowOf(items, n)]
  {
    assert !Faulty(items, allowed, n, NotAnObjectAtAll);
    if items[n].model.Some? {
      assert !Faulty(items, allowed, n, ModelNotAllowed(items[n].model.value));
    }
  }

  lemma {:induction false} CleanRows(items: seq<Item>, allowed: set<string>, n: nat)
    requires n <= |items|
    requires forall i, f :: 0 <= i < n ==> !Faulty(items, allowed, i, f)
    ensures |RowsUpTo(items, allowed, n)| == n
    ensures forall i :: 0 <= i < n ==> items[i].Object? && RowsUpTo(items, allowed, n)[i] == RowOf(items, i)
  {
    if n > 0 {
      CleanRow(items, allowed, n - 1);
      CleanRows(items, allowed, n - 1);
    }
  }

  lemma {:induction false} SoundRow(items: seq<Item>, allowed: set<string>, i: nat)
    requires i < |items| && forall f :: !Faulty(items, allowed, i, f)
    ensures items[i].Object? && RowFor(items[i], RowOf(items, i))
  {
    assert !Faulty(items, allowed, i, NotAnObjectAtAll);
    assert !Faulty(items, allowed, i, DependsOnNotAList);
    assert !Faulty(items, allowed, i, MissingText);
    Text.CollapseCollapses(items[i].title);
    Text.StripMeaning(items[i].prompt);
    BlankTexts(items[i].title, items[i].prompt);
  }

  method UnknownDependencies(deps: seq<Id>, ids: set<Id>) returns (faults: seq<Fault>)
    ensures forall f :: f in faults <==> f.UnknownDependency? && f.dependency in deps && f.dependency !in ids
  {
    faults := [];
    for k := 0 to |deps|
      invariant forall f :: f in faults <==> f.UnknownDependency? && f.dependency in deps[..k] && f.dependency !in ids
    {
      assert deps[..k + 1] == deps[..k] + [deps[k]];
      if deps[k] !in ids {
        faults := faults + [UnknownDependency(deps[k])];
      }
    }
    assert deps[..|deps|] == deps;
  }

  lemma {:induction false} BlankTexts(title: string, prompt: string)
    ensures Text.Collapse(title) == "" <==> Text.AllSpace(title)
    ensures Text.Strip(prompt) == "" <==> Text.AllSpace(prompt)
  {
    Text.CollapseMeaning(title);
    Text.StripMeaning(prompt);
  }

  // Faults of one kind: one at most, but for the unknown dependencies.
  ghost predicate OfKind(faults: seq<Fault>, r: nat)
  {
    (forall f :: f in faults ==> Rank(f) == r) && (r == 3 || |faults| <= 1)
  }

  ghost predicate Below(faults: seq<Fault>, r: nat)
  {
    Ranked(faults) && forall f :: f in faults ==> Rank(f) < r
  }

  lemma {:induction false} NextKind(faults: seq<Fault>, more: seq<Fault>, r: nat)
    requires Below(faults, r) && OfKind(more, r)
    ensures Below(faults + more, r + 1)
  {
    var all := faults + more;
    forall j, k | 0 <= j < k < |all| ensures InRank(all[j], all[k]) {
      assert j < |faults| ==> all[j] in faults;
      assert k < |faults| ==> InRank(faults[j], faults[k]);
      assert k >= |faults| ==> all[k] in more;
      assert j >= |faults| ==> all[j] in more;
    }
  }

  lemma {:induction false} KindsInOrder(text: seq<Fault>, list: seq<Fault>, unknown: seq<Fault>, model: seq<Fault>,
                                        duplicate: seq<Fault>)
    requires OfKind(text, 1) && OfKind(list, 2) && OfKind(unknown, 3) && OfKind(model, 4) && OfKind(duplicate, 5)
    ensures Ranked(text + list + unknown + model + duplicate)
  {
    NextKind([], text, 1);
    assert [] + text == text;
    NextKind(text, list, 2);
    NextKind(text + list, unknown, 3);
    NextKind(text + list + unknown, model, 4);
    NextKind(text + list + unknown + model, duplicate, 5);
  }

  // The faults of item `i`; `seenIds` are the ids of the objects before it.
  method CheckItem(items: seq<Item>, allowed: set<string>, i: nat, ids: set<Id>, seenIds: set<Id>)
    returns (faults: seq<Fault>)
    requires i < |items| && ids == Ids(items)
    requires forall id :: id in seenIds <==> UsedBefore(items, i, id)
    ensures forall f :: f in faults <==> Faulty(items, allowed, i, f)
    ensures Ranked(faults)
  {
    var item := items[i];
    if item.Other? {
      return [NotAnObjectAtAll];
    }
    BlankTexts(item.title, item.prompt);
    var text := if Text.Collapse(item.title) == "" || Text.Strip(item.prompt) == "" then [MissingText] else [];
    var list := if item.dependsOn.NotAList? then [DependsOnNotAList] else [];
    var unknown := UnknownDependencies(Dependencies(item), ids);
    var model := if item.model.Some? && item.model.value !in allowed then [ModelNotAllowed(item.model.value)] else [];
    var duplicate := if items[i].id in seenIds then [DuplicateId(items[i].id)] else [];
    KindsInOrder(text, list, unknown, model, duplicate);
    faults := text + list + unknown + model + duplicate;
    forall f ensures f in faults <==> Faulty(items, allowed, i, f) {
      assert f in faults <==> f in text || f in list || f in unknown || f in model || f in duplicate;
    }
  }

  function Tagged(i: nat, faults: seq<Fault>): (es: seq<PlanError>)
    ensures forall e :: e in es <==> e.OfItem? && e.item == i && e.fault in faults
    ensures |es| == |faults| && forall k :: 0 <= k < |es| ==> es[k] == OfItem(i, faults[k])
  {
    if faults == [] then [] else [OfItem(i, faults[0])] + Tagged(i, faults[1..])
  }

  lemma {:induction false} ReportedNext(errors: seq<PlanError>, i: nat, faults: seq<Fault>)
    requires Reported(errors) && Ranked(faults) && forall e :: e in errors ==> e.OfItem? && e.item < i
    ensures Reported(errors + Tagged(i, faults))
  {
    var es := errors + Tagged(i, faults);
    forall j | 0 <= j < |errors| ensures es[j].OfItem? && es[j].item < i {
      assert es[j] in errors;
    }
  }

  lemma {:induction false} CycleLast(errors: seq<PlanError>)
    requires Reported(errors) && forall e :: e in errors ==> e.OfItem?
    ensures Reported(errors + [HasCycle])
  {
    forall k | 0 <= k < |errors| ensures errors[k].OfItem? {
      assert errors[k] in errors;
    }
  }

  /**
   * Either rows or errors, never both and never neither: rows exactly for a plan
   * without defects, and otherwise every defect of the plan and nothing else.
   */
  method ValidatePlan(parsed: Parsed, allowed: set<string>) returns (rows: seq<Row>, errors: seq<PlanError>)
    ensures rows == [] <==> errors != []
    ensures errors == [] <==> parsed.Items? && Sound(parsed.items, allowed)
    ensures parsed.InvalidJson? ==> errors == [NotJson]
    ensures parsed.NotAnArray? || parsed == Items([]) ==> errors == [NotANonEmptyArray]
    ensures parsed.Items? && parsed.items != [] ==> forall e :: e in errors <==> Defect(parsed.items, allowed, e)
    ensures Reported(errors)
    ensures errors == [] ==> |rows| == |parsed.items|
    ensures errors == [] ==>
            forall i :: 0 <= i < |rows| ==> parsed.items[i].Object? && rows[i] == RowOf(parsed.items, i)
    ensures errors == [] ==> forall i :: 0 <= i < |rows| ==> RowFor(parsed.items[i], rows[i])
    ensures errors == [] ==> Acyclic(GraphOf(rows))
  {
    if parsed.InvalidJson? {
      return [], [NotJson];
    }
    if !parsed.Items? || parsed.items == [] {
      return [], [NotANonEmptyArray];
    }
    var items := parsed.items;
    rows, errors := CheckItems(items, allowed);
    GraphOfRows(items, allowed, |items|);
    var cyclic := HasCycleIn(rows);
    if cyclic {
      CycleLast(errors);
      errors := errors + [HasCycle];
    }
    assert forall e :: e in errors <==> Defect(items, allowed, e);
    if errors != [] {
      assert errors[0] in errors;
      rows := [];
    } else {
      forall i, f | 0 <= i < |items| ensures !Faulty(items, allowed, i, f) {
        assert !Defect(items, allowed, OfItem(i, f));
      }
      CleanRows(items, allowed, |items|);
      forall i | 0 <= i < |items| ensures RowFor(items[i], RowOf(items, i)) {
        SoundRow(items, allowed, i);
      }
    }
  }

  method CheckItems(items: seq<Item>, allowed: set<string>) returns (rows: seq<Row>, errors: seq<PlanError>)
    ensures rows == RowsUpTo(items, allowed, |items|)
    ensures forall e :: e in errors <==> FaultAmong(items, allowed, |items|, e)
    ensures Reported(errors)
  {
    var ids, seenIds: set<Id> := Ids(items), {};
    rows, errors := [], [];
    for i := 0 to |items|
      invariant forall id :: id in seenIds <==> UsedBefore(items, i, id)
      invariant rows == RowsUpTo(items, allowed, i)
      invariant forall e :: e in errors <==> FaultAmong(items, allowed, i, e)
      invariant Reported(errors)
    {
      var item := items[i];
      var faults := CheckItem(items, allowed, i, ids, seenIds);
      ghost var before := errors;
      ReportedNext(errors, i, faults);
      errors := errors + Tagged(i, faults);
      forall e ensures e in errors <==> FaultAmong(items, allowed, i + 1, e) {
        assert e in errors <==> e in before || e in Tagged(i, faults);
      }
      if item.Object? {
        seenIds := seenIds + {items[i].id};
        var model := if item.model.Some? && item.model.value !in allowed then None else item.model;
        rows := rows +
            [Row(items[i].id, Text.Collapse(item.title), Text.Strip(item.prompt), Dependencies(item), model)];
      }
    }
  }
}
