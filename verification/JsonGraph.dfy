/** `assertJsonValue` of `packages/tekmemo-mcp-server/src/utils/json.ts`, over an arbitrary heap. */
module JsonGraph {
  import opened Optional
  import opened Text

  // Containers are named by their identity, so that they may be shared or cyclic, and
  // the heap gives the content of each.

  type Id = nat

  /** `Other` stands for `undefined`, functions, symbols and big integers. */
  datatype Value = Null | String | Boolean | Number(finite: bool) | Other | Ref(id: Id)

  /** An element of an array has no key. */
  datatype Child = Child(key: Option<Text>, value: Value)

  /** `Exotic` is any object that is neither an array nor plain. */
  datatype Cell = Array(items: seq<Value>) | Plain(entries: seq<(Text, Value)>) | Exotic

  type Heap = Id -> Cell

  /** Names a value by the positions that lead to it. */
  type Path = seq<nat>

  const MAX_DEPTH := 32
  const MAX_ENTRIES := 10_000
  const MAX_KEY := 256

  datatype Kind =
    | TooDeep | NotFinite | Circular | ArrayTooLarge | NotPlain
    | TooManyKeys | UnsafeKey | OversizedKey | NotSerializable

  datatype Fault = Fault(path: Path, kind: Kind)

  predicate BlockedKey(key: Text) {
    key == Ascii("__proto__") || key == Ascii("prototype") || key == Ascii("constructor")
  }

  function KeyFault(c: Child): Option<Kind> {
    if c.key.None? then None
    else if BlockedKey(c.key.value) then Some(UnsafeKey)
    else if |c.key.value| > MAX_KEY then Some(OversizedKey)
    else None
  }

  function Children(cell: Cell): seq<Child> {
    match cell
    case Array(items) => seq(|items|, i requires 0 <= i < |items| => Child(None, items[i]))
    case Plain(entries) => seq(|entries|, i requires 0 <= i < |entries| => Child(Some(entries[i].0), entries[i].1))
    case Exotic => []
  }

  // ----------------------------------------------------------- specification

  /** The value that a path from `v` leads to. */
  function At(heap: Heap, v: Value, p: Path): Option<Value>
    decreases |p|, 1
  {
    if p == [] then Some(v)
    else if v.Ref? then Below(heap, Children(heap(v.id)), 0, p)
    else None
  }

  /** The same below a list of children, of which those before `from` are ignored. */
  function Below(heap: Heap, children: seq<Child>, from: nat, p: Path): Option<Value>
    requires p != []
    decreases |p|, 0
  {
    if from <= p[0] < |children| then At(heap, children[p[0]].value, p[1..]) else None
  }

  /** What is wrong with a value taken by itself. */
  function LocalFault(heap: Heap, v: Value): set<Kind> {
    match v
    case Number(finite) => if finite then {} else {NotFinite}
    case Other => {NotSerializable}
    case Ref(id) =>
      if heap(id).Exotic? then {NotPlain}
      else
        var cs := Children(heap(id));
        (if |cs| > MAX_ENTRIES then {if heap(id).Array? then ArrayTooLarge else TooManyKeys} else {})
        + (set c | c in cs && KeyFault(c).Some? :: KeyFault(c).value)
    case _ => {}
  }

  ghost predicate Reaches(heap: Heap, v: Value, id: Id) {
    exists p :: At(heap, v, p) == Some(Ref(id))
  }

  /**
   Everything that can be reached from `v`, itself `depth` deep, is legal, no
   deeper than the limit, and every container is reached by one path only, and
   is none of `seen`.
   */
  ghost predicate IsTree(heap: Heap, v: Value, depth: nat, seen: set<Id>) {
    && (forall p :: At(heap, v, p).Some? ==> Fits(heap, At(heap, v, p).value, depth + |p|, seen))
    && (forall p, q :: SameContainer(At(heap, v, p), At(heap, v, q)) ==> p == q)
  }

  predicate Fits(heap: Heap, v: Value, depth: nat, seen: set<Id>) {
    depth <= MAX_DEPTH && LocalFault(heap, v) == {} && (v.Ref? ==> v.id !in seen)
  }

  predicate SameContainer(v: Option<Value>, w: Option<Value>) {
    v.Some? && v == w && v.value.Ref?
  }

  // -------------------------------------------------------------- the search

  function Check(heap: Heap, v: Value, path: Path, seen: set<Id>): Result<set<Id>, Fault>
    decreases MAX_DEPTH + 1 - |path|, 0
  {
    if |path| > MAX_DEPTH then Err(Fault(path, TooDeep))
    else match v
      case Number(finite) => if finite then Ok(seen) else Err(Fault(path, NotFinite))
      case Other => Err(Fault(path, NotSerializable))
      case Ref(id) =>
        if heap(id).Exotic? then Err(Fault(path, NotPlain))
        else if id in seen then Err(Fault(path, Circular))
        else if |Children(heap(id))| > MAX_ENTRIES then
          Err(Fault(path, if heap(id).Array? then ArrayTooLarge else TooManyKeys))
        else CheckFrom(heap, Children(heap(id)), 0, path, seen + {id})
      case _ => Ok(seen)
  }

  function CheckFrom(heap: Heap, children: seq<Child>, from: nat, path: Path, seen: set<Id>): Result<set<Id>, Fault>
    requires |path| <= MAX_DEPTH && from <= |children|
    decreases MAX_DEPTH - |path|, 1, |children| - from
  {
    if from == |children| then Ok(seen)
    else if KeyFault(children[from]).Some? then Err(Fault(path, KeyFault(children[from]).value))
    else match Check(heap, children[from].value, path + [from], seen)
      case Err(e) => Err(e)
      case Ok(now) => CheckFrom(heap, children, from + 1, path, now)
  }

  /** The set of visited containers that all calls of one validation share. */
  class SeenSet {
    var ids: set<Id>

    constructor ()
      ensures ids == {}
    {
      ids := {};
    }
  }

  method AssertJsonValue(heap: Heap, value: Value, path: Path, seen: SeenSet) returns (fault: Option<Fault>)
    modifies seen
    ensures match Check(heap, value, path, old(seen.ids))
            case Ok(ids) => fault == None && seen.ids == ids
            case Err(e) => fault == Some(e)
    decreases MAX_DEPTH + 1 - |path|
  {
    if |path| > MAX_DEPTH {
      return Some(Fault(path, TooDeep));
    }
    match value
    case Null | String | Boolean =>
      return None;
    case Number(finite) =>
      return if finite then None else Some(Fault(path, NotFinite));
    case Other =>
      return Some(Fault(path, NotSerializable));
    case Ref(id) =>
      var cell := heap(id);
      if cell.Array? {
        if id in seen.ids {
          return Some(Fault(path, Circular));
        }
        seen.ids := seen.ids + {id};
        if |cell.items| > MAX_ENTRIES {
          return Some(Fault(path, ArrayTooLarge));
        }
        for index := 0 to |cell.items|
          invariant Check(heap, value, path, old(seen.ids)) == CheckFrom(heap, Children(cell), index, path, seen.ids)
        {
          fault := AssertJsonValue(heap, cell.items[index], path + [index], seen);
          if fault.Some? {
            return;
          }
        }
        return None;
      }
      if cell.Exotic? {
        return Some(Fault(path, NotPlain));
      }
      if id in seen.ids {
        return Some(Fault(path, Circular));
      }
      seen.ids := seen.ids + {id};
      var entries := cell.entries;
      if |entries| > MAX_ENTRIES {
        return Some(Fault(path, TooManyKeys));
      }
      for index := 0 to |entries|
        invariant Check(heap, value, path, old(seen.ids)) == CheckFrom(heap, Children(cell), index, path, seen.ids)
      {
        var key, child := entries[index].0, entries[index].1;
        if BlockedKey(key) {
          return Some(Fault(path, UnsafeKey));
        }
        if |key| > MAX_KEY {
          return Some(Fault(path, OversizedKey));
        }
        fault := AssertJsonValue(heap, child, path + [index], seen);
        if fault.Some? {
          return;
        }
      }
      return None;
  }

  method ToJsonObject(heap: Heap, value: Value) returns (fault: Option<Fault>)
    ensures fault.None? <==> IsTree(heap, value, 0, {}) && value.Ref? && heap(value.id).Plain?
  {
    var seen := new SeenSet();
    fault := AssertJsonValue(heap, value, [], seen);
    CheckMeaning(heap, value, [], {});
    if fault.None? {
      if !(value.Ref? && heap(value.id).Plain?) {
        return Some(Fault([], NotPlain));
      }
    }
  }

  // ----------------------------------------------------------- correctness

  /** `IsTree` for the children from `from` on. */
  ghost predicate IsForest(heap: Heap, children: seq<Child>, from: nat, depth: nat, seen: set<Id>) {
    && (forall p: Path :: p != [] && Below(heap, children, from, p).Some? ==>
          Fits(heap, Below(heap, children, from, p).value, depth + |p|, seen))
    && (forall p: Path, q: Path ::
          (p != [] && q != [] && SameContainer(Below(heap, children, from, p), Below(heap, children, from, q))) ==> p == q)
  }

  ghost predicate ForestReaches(heap: Heap, children: seq<Child>, from: nat, id: Id) {
    exists p: Path :: p != [] && Below(heap, children, from, p) == Some(Ref(id))
  }

  /** A container is a tree exactly when its children are a forest that avoids it. */
  lemma TreeOfContainer(heap: Heap, id: Id, depth: nat, seen: set<Id>)
    ensures IsTree(heap, Ref(id), depth, seen)
            <==> Fits(heap, Ref(id), depth, seen) && IsForest(heap, Children(heap(id)), 0, depth, seen + {id})
  {
    hide Fits;
    var v, cs := Ref(id), Children(heap(id));
    FitsMore(heap, seen, id);
    assert At(heap, v, []) == Some(v);
    if IsTree(heap, v, depth, seen) {
      forall p: Path | p != [] && Below(heap, cs, 0, p).Some?
        ensures Fits(heap, Below(heap, cs, 0, p).value, depth + |p|, seen + {id})
      {
        assert At(heap, v, p) == Below(heap, cs, 0, p);
        assert !SameContainer(At(heap, v, p), At(heap, v, []));
      }
      forall p: Path, q: Path | p != [] && q != [] && SameContainer(Below(heap, cs, 0, p), Below(heap, cs, 0, q))
        ensures p == q
      {
        assert SameContainer(At(heap, v, p), At(heap, v, q));
      }
    }
    if Fits(heap, v, depth, seen) && IsForest(heap, cs, 0, depth, seen + {id}) {
      forall p | At(heap, v, p).Some?
        ensures Fits(heap, At(heap, v, p).value, depth + |p|, seen)
        ensures p != [] ==> At(heap, v, p) != Some(v)
      {
        if p != [] { assert At(heap, v, p) == Below(heap, cs, 0, p); }
      }
      forall p, q | SameContainer(At(heap, v, p), At(heap, v, q))
        ensures p == q
      {
        if p != [] && q != [] { assert SameContainer(Below(heap, cs, 0, p), Below(heap, cs, 0, q)); }
      }
    }
  }

  lemma FitsMore(heap: Heap, seen: set<Id>, id: Id)
    ensures forall v: Value, d: nat {:trigger Fits(heap, v, d, seen + {id})} ::
              Fits(heap, v, d, seen + {id}) <==> Fits(heap, v, d, seen) && v != Ref(id)
  {
  }

  /**
   A forest is its first tree and, avoiding what that one reaches, the rest;
   `now` is `seen` with what the first tree reaches.
   */
  lemma ForestSplit(heap: Heap, children: seq<Child>, from: nat, depth: nat, seen: set<Id>, now: set<Id>)
    requires from < |children|
    requires forall id: Id :: id in now <==> id in seen || Reaches(heap, children[from].value, id)
    ensures IsForest(heap, children, from, depth, seen)
            <==> IsTree(heap, children[from].value, depth + 1, seen) && IsForest(heap, children, from + 1, depth, now)
  {
    hide LocalFault;
    var v := children[from].value;
    if IsForest(heap, children, from, depth, seen) {
      FirstTree(heap, children, from, depth, seen);
      OtherTrees(heap, children, from, depth, seen, now);
    }
    if IsTree(heap, v, depth + 1, seen) && IsForest(heap, children, from + 1, depth, now) {
      JoinForest(heap, children, from, depth, seen, now);
    }
  }

  lemma Under(heap: Heap, children: seq<Child>, from: nat, i: nat, p: Path)
    requires from <= i < |children|
    ensures Below(heap, children, from, [i] + p) == At(heap, children[i].value, p)
  {
    assert ([i] + p)[1..] == p;
  }

  lemma FirstTree(heap: Heap, children: seq<Child>, from: nat, depth: nat, seen: set<Id>)
    requires from < |children| && IsForest(heap, children, from, depth, seen)
    ensures IsTree(heap, children[from].value, depth + 1, seen)
  {
    hide Fits, At, Below;
    var v := children[from].value;
    forall p | At(heap, v, p).Some?
      ensures Fits(heap, At(heap, v, p).value, depth + 1 + |p|, seen)
    {
      Under(heap, children, from, from, p);
      assert depth + |[from] + p| == depth + 1 + |p|;
    }
    forall p, q | SameContainer(At(heap, v, p), At(heap, v, q))
      ensures p == q
    {
      Under(heap, children, from, from, p);
      Under(heap, children, from, from, q);
      assert p == ([from] + p)[1..] == ([from] + q)[1..] == q;
    }
  }

  lemma FirstTreeAvoids(heap: Heap, children: seq<Child>, from: nat, depth: nat, seen: set<Id>, p: Path)
    requires from < |children| && IsForest(heap, children, from, depth, seen)
    requires p != [] && from < p[0] && Below(heap, children, from, p).Some? && Below(heap, children, from, p).value.Ref?
    ensures !Reaches(heap, children[from].value, Below(heap, children, from, p).value.id)
  {
    hide Fits, At, Below;
    var v, w := children[from].value, Below(heap, children, from, p);
    forall q
      ensures At(heap, v, q) != w
    {
      Under(heap, children, from, from, q);
      assert ([from] + q)[0] != p[0];
      assert SameContainer(Below(heap, children, from, p), Below(heap, children, from, [from] + q)) ==> p == [from] + q;
    }
  }

  lemma OtherTrees(heap: Heap, children: seq<Child>, from: nat, depth: nat, seen: set<Id>, now: set<Id>)
    requires from < |children| && IsForest(heap, children, from, depth, seen)
    requires forall id: Id :: id in now ==> id in seen || Reaches(heap, children[from].value, id)
    ensures IsForest(heap, children, from + 1, depth, now)
  {
    hide LocalFault;
    var v := children[from].value;
    forall p: Path | p != [] && Below(heap, children, from + 1, p).Some?
      ensures Below(heap, children, from, p) == Below(heap, children, from + 1, p)
      ensures Fits(heap, Below(heap, children, from + 1, p).value, depth + |p|, now)
    {
      if Below(heap, children, from, p).value.Ref? {
        FirstTreeAvoids(heap, children, from, depth, seen, p);
      }
    }
    var next := from + 1;
    forall p: Path, q: Path | p != [] && q != [] && SameContainer(Below(heap, children, next, p), Below(heap, children, next, q))
      ensures p == q
    {
      assert SameContainer(Below(heap, children, from, p), Below(heap, children, from, q));
    }
  }

  lemma TreesApart(heap: Heap, children: seq<Child>, from: nat, depth: nat, now: set<Id>, p: Path, q: Path)
    requires from < |children| && p != [] && q != [] && p[0] == from && q[0] != from
    requires IsForest(heap, children, from + 1, depth, now)
    requires forall id: Id :: Reaches(heap, children[from].value, id) ==> id in now
    ensures !SameContainer(Below(heap, children, from, p), Below(heap, children, from, q))
  {
    hide LocalFault;
    var w := Below(heap, children, from, p);
    if w.Some? && w.value.Ref? {
      assert At(heap, children[from].value, p[1..]) == Some(Ref(w.value.id));
      assert Reaches(heap, children[from].value, w.value.id);
      assert Below(heap, children, from, q) == Below(heap, children, from + 1, q);
    }
  }

  lemma JoinForest(heap: Heap, children: seq<Child>, from: nat, depth: nat, seen: set<Id>, now: set<Id>)
    requires from < |children|
    requires IsTree(heap, children[from].value, depth + 1, seen) && IsForest(heap, children, from + 1, depth, now)
    requires forall id: Id :: id in seen || Reaches(heap, children[from].value, id) ==> id in now
    ensures IsForest(heap, children, from, depth, seen)
  {
    hide LocalFault;
    var v := children[from].value;
    forall p: Path | p != [] && Below(heap, children, from, p).Some?
      ensures Fits(heap, Below(heap, children, from, p).value, depth + |p|, seen)
      ensures p[0] == from ==> Below(heap, children, from, p) == At(heap, v, p[1..])
      ensures p[0] != from ==> Below(heap, children, from, p) == Below(heap, children, from + 1, p)
      ensures p[0] != from ==> Fits(heap, Below(heap, children, from, p).value, depth + |p|, now)
    {
    }
    forall p: Path, q: Path | p != [] && q != []
      ensures SameContainer(Below(heap, children, from, p), Below(heap, children, from, q)) ==> p == q
    {
      if p[0] == from && q[0] == from {
        assert SameContainer(Below(heap, children, from, p), Below(heap, children, from, q)) ==> SameContainer(At(heap, v, p[1..]), At(heap, v, q[1..]));
        assert p == [p[0]] + p[1..] && q == [q[0]] + q[1..];
      } else if p[0] == from {
        TreesApart(heap, children, from, depth, now, p, q);
      } else if q[0] == from {
        TreesApart(heap, children, from, depth, now, q, p);
      } else if SameContainer(Below(heap, children, from, p), Below(heap, children, from, q)) {
        assert SameContainer(Below(heap, children, from + 1, p), Below(heap, children, from + 1, q));
      }
    }
  }

  /** The search accepts exactly the trees, and leaves exactly what it reached in the set. */
  lemma {:induction false} CheckMeaning(heap: Heap, v: Value, path: Path, seen: set<Id>)
    ensures Check(heap, v, path, seen).Ok? <==> IsTree(heap, v, |path|, seen)
    ensures Check(heap, v, path, seen).Ok? ==>
              forall id: Id :: id in Check(heap, v, path, seen).value <==> id in seen || Reaches(heap, v, id)
    decreases MAX_DEPTH + 1 - |path|, 0
  {
    hide IsForest, Reaches, ForestReaches;
    assert At(heap, v, []) == Some(v);
    if v.Ref? {
      var cs := Children(heap(v.id));
      TreeOfContainer(heap, v.id, |path|, seen);
      ContainerReaches(heap, v.id);
      if |path| <= MAX_DEPTH && |cs| <= MAX_ENTRIES && v.id !in seen && !heap(v.id).Exotic? {
        CheckFromMeaning(heap, cs, 0, path, seen + {v.id});
        KeyFaults(heap, v.id);
      }
    } else {
      LeafReaches(heap, v);
      if IsTree(heap, v, |path|, seen) {
        assert Fits(heap, v, |path|, seen);
      } else {
        assert !Fits(heap, v, |path|, seen);
      }
    }
  }

  lemma LeafReaches(heap: Heap, v: Value)
    requires !v.Ref?
    ensures forall p :: p != [] ==> At(heap, v, p) == None
    ensures forall id: Id :: !Reaches(heap, v, id)
  {
  }

  lemma ContainerReaches(heap: Heap, id: Id)
    ensures forall k: Id :: Reaches(heap, Ref(id), k) <==> k == id || ForestReaches(heap, Children(heap(id)), 0, k)
  {
    var cs := Children(heap(id));
    forall k: Id
      ensures Reaches(heap, Ref(id), k) <==> k == id || ForestReaches(heap, cs, 0, k)
    {
      assert At(heap, Ref(id), []) == Some(Ref(id));
      if Reaches(heap, Ref(id), k) && k != id {
        var p :| At(heap, Ref(id), p) == Some(Ref(k));
        assert Below(heap, cs, 0, p) == Some(Ref(k));
      }
      if ForestReaches(heap, cs, 0, k) {
        var p: Path :| p != [] && Below(heap, cs, 0, p) == Some(Ref(k));
        assert At(heap, Ref(id), p) == Some(Ref(k));
      }
    }
  }

  lemma KeyFaults(heap: Heap, id: Id)
    requires !heap(id).Exotic? && |Children(heap(id))| <= MAX_ENTRIES
    ensures LocalFault(heap, Ref(id)) == {} <==> forall i :: 0 <= i < |Children(heap(id))| ==> KeyFault(Children(heap(id))[i]) == None
  {
    hide KeyFault, Children;
    var cs := Children(heap(id));
    var faults := set c | c in cs && KeyFault(c).Some? :: KeyFault(c).value;
    assert LocalFault(heap, Ref(id)) == faults;
    forall i | 0 <= i < |cs| && KeyFault(cs[i]).Some?
      ensures KeyFault(cs[i]).value in faults
    {
    }
  }

  lemma ForestReachesSplit(heap: Heap, children: seq<Child>, from: nat)
    requires from < |children|
    ensures forall k: Id :: ForestReaches(heap, children, from, k)
              <==> Reaches(heap, children[from].value, k) || ForestReaches(heap, children, from + 1, k)
  {
    var v := children[from].value;
    forall k: Id
      ensures ForestReaches(heap, children, from, k) <==> Reaches(heap, v, k) || ForestReaches(heap, children, from + 1, k)
    {
      if Reaches(heap, v, k) {
        var p :| At(heap, v, p) == Some(Ref(k));
        Under(heap, children, from, from, p);
      }
      if ForestReaches(heap, children, from + 1, k) {
        var p: Path :| p != [] && Below(heap, children, from + 1, p) == Some(Ref(k));
        assert Below(heap, children, from, p) == Some(Ref(k));
      }
      if ForestReaches(heap, children, from, k) {
        var p: Path :| p != [] && Below(heap, children, from, p) == Some(Ref(k));
        if p[0] == from {
          assert At(heap, v, p[1..]) == Some(Ref(k));
        } else {
          assert Below(heap, children, from + 1, p) == Some(Ref(k));
        }
      }
    }
  }

  lemma {:induction false} CheckFromMeaning(heap: Heap, children: seq<Child>, from: nat, path: Path, seen: set<Id>)
    requires |path| <= MAX_DEPTH && from <= |children|
    ensures CheckFrom(heap, children, from, path, seen).Ok?
            <==> IsForest(heap, children, from, |path|, seen) && forall i :: from <= i < |children| ==> KeyFault(children[i]) == None
    ensures CheckFrom(heap, children, from, path, seen).Ok? ==>
              forall id: Id :: id in CheckFrom(heap, children, from, path, seen).value
                         <==> id in seen || ForestReaches(heap, children, from, id)
    decreases MAX_DEPTH - |path|, 1, |children| - from
  {
    if from < |children| {
      CheckFromStep(heap, children, from, path, seen);
    }
  }

  lemma {:induction false} CheckFromStep(heap: Heap, children: seq<Child>, from: nat, path: Path, seen: set<Id>)
    requires |path| <= MAX_DEPTH && from < |children|
    ensures CheckFrom(heap, children, from, path, seen).Ok?
            <==> IsForest(heap, children, from, |path|, seen) && forall i :: from <= i < |children| ==> KeyFault(children[i]) == None
    ensures CheckFrom(heap, children, from, path, seen).Ok? ==>
              forall id: Id :: id in CheckFrom(heap, children, from, path, seen).value
                         <==> id in seen || ForestReaches(heap, children, from, id)
    decreases MAX_DEPTH - |path|, 1, |children| - from, 0
  {
    hide IsForest, IsTree, Reaches, ForestReaches, KeyFault, Check;
    if KeyFault(children[from]) == None {
      CheckMeaning(heap, children[from].value, path + [from], seen);
      match Check(heap, children[from].value, path + [from], seen)
      case Err(_) =>
        if IsForest(heap, children, from, |path|, seen) { FirstTree(heap, children, from, |path|, seen); }
      case Ok(now) =>
        ForestSplit(heap, children, from, |path|, seen, now);
        ForestReachesSplit(heap, children, from);
        CheckFromMeaning(heap, children, from + 1, path, now);
    }
  }

  // ---------------------------------------------------------- what is reported

  /** The fault reported is there: at its path, and of its kind. */
  ghost predicate Real(heap: Heap, v: Value, p: Path, kind: Kind, depth: nat, seen: set<Id>) {
    && At(heap, v, p).Some?
    && var w := At(heap, v, p).value;
       match kind
       case TooDeep => depth + |p| > MAX_DEPTH
       case Circular => w.Ref? && (w.id in seen || exists q :: q != p && At(heap, v, q) == Some(w))
       case _ => kind in LocalFault(heap, w)
  }

  lemma {:induction false} FaultIsReal(heap: Heap, v: Value, path: Path, seen: set<Id>)
    requires Check(heap, v, path, seen).Err?
    ensures var f := Check(heap, v, path, seen).error;
            path <= f.path && Real(heap, v, f.path[|path|..], f.kind, |path|, seen)
    decreases MAX_DEPTH + 1 - |path|, 0
  {
    var f := Check(heap, v, path, seen).error;
    assert At(heap, v, []) == Some(v);
    if |path| <= MAX_DEPTH && v.Ref? && !heap(v.id).Exotic? && v.id !in seen && |Children(heap(v.id))| <= MAX_ENTRIES {
      var cs := Children(heap(v.id));
      FaultBelow(heap, v.id, 0, path, seen, seen + {v.id});
    } else {
      assert f.path[|path|..] == [];
    }
  }

  lemma KeyFaultIsLocal(heap: Heap, id: Id, i: nat)
    requires !heap(id).Exotic? && i < |Children(heap(id))| && KeyFault(Children(heap(id))[i]).Some?
    ensures KeyFault(Children(heap(id))[i]).value in LocalFault(heap, Ref(id)) - {TooDeep, Circular}
  {
  }

  ghost predicate ReachedBefore(heap: Heap, id: Id, from: nat, k: Id) {
    exists q: Path :: q != [] && q[0] < from && At(heap, Ref(id), q) == Some(Ref(k))
  }

  /** `now` holds what was seen before, the container and what its first children reach. */
  lemma {:induction false} FaultBelow(heap: Heap, id: Id, from: nat, path: Path, seen: set<Id>, now: set<Id>)
    requires |path| <= MAX_DEPTH && !heap(id).Exotic? && from <= |Children(heap(id))|
    requires CheckFrom(heap, Children(heap(id)), from, path, now).Err?
    requires forall k: Id | k in now ::
               k in seen || k == id || ReachedBefore(heap, id, from, k)
    ensures var f := CheckFrom(heap, Children(heap(id)), from, path, now).error;
            path <= f.path && Real(heap, Ref(id), f.path[|path|..], f.kind, |path|, seen)
    decreases MAX_DEPTH - |path|, 1, |Children(heap(id))| - from
  {
    hide LocalFault, Check, IsTree, KeyFault;
    var cs := Children(heap(id));
    var child := cs[from];
    if KeyFault(child).Some? {
      KeyFaultIsLocal(heap, id, from);
    } else {
      match Check(heap, child.value, path + [from], now)
      case Err(f) =>
        FaultIsReal(heap, child.value, path + [from], now);
        FaultLifted(heap, id, from, f, path, seen, now);
      case Ok(after) =>
        CheckMeaning(heap, child.value, path + [from], now);
        forall k: Id | k in after && k !in now
          ensures ReachedBefore(heap, id, from + 1, k)
        {
          var p :| At(heap, child.value, p) == Some(Ref(k));
          Under(heap, cs, 0, from, p);
        }
        FaultBelow(heap, id, from + 1, path, seen, after);
    }
  }

  lemma FaultLifted(heap: Heap, id: Id, from: nat, f: Fault, path: Path, seen: set<Id>, now: set<Id>)
    requires from < |Children(heap(id))|
    requires path + [from] <= f.path
    requires Real(heap, Children(heap(id))[from].value, f.path[|path| + 1..], f.kind, |path| + 1, now)
    requires forall k: Id | k in now ::
               k in seen || k == id || ReachedBefore(heap, id, from, k)
    ensures path <= f.path && Real(heap, Ref(id), f.path[|path|..], f.kind, |path|, seen)
  {
    hide LocalFault;
    var v := Children(heap(id))[from].value;
    var p := f.path[|path| + 1..];
    var long := f.path[|path|..];
    assert long == [from] + p && long[1..] == p;
    assert At(heap, Ref(id), long) == At(heap, v, p);
    if f.kind == Circular {
      var w := At(heap, v, p).value;
      if w.id in now {
        if w.id == id { assert At(heap, Ref(id), []) == Some(w); }
      } else {
        var q :| q != p && At(heap, v, q) == Some(w);
        Under(heap, Children(heap(id)), 0, from, q);
        assert ([from] + q)[1..] == q;
        assert At(heap, Ref(id), [from] + q) == Some(w);
      }
    }
  }

  // -------------------------------------------------------------- statements

  predicate ForbiddenKey(key: Text) {
    Spells(key, "__proto__") || Spells(key, "prototype") || Spells(key, "constructor")
  }

  /** A key that is none of these three and not too long. */
  predicate LegalKey(key: Text) {
    !ForbiddenKey(key) && |key| <= 256
  }

  /** A finite number, a text, a truth value, null, or a plain container of no more than 10000 items or entries with legal keys. */
  predicate Legal(heap: Heap, v: Value) {
    match v
    case Null | String | Boolean => true
    case Number(finite) => finite
    case Other => false
    case Ref(id) =>
      match heap(id)
      case Array(items) => |items| <= 10_000
      case Plain(entries) => |entries| <= 10_000 && forall i :: 0 <= i < |entries| ==> LegalKey(entries[i].0)
      case Exotic => false
  }

  lemma KeysBlocked(key: Text)
    ensures BlockedKey(key) <==> ForbiddenKey(key)
    ensures BlockedKey(key) ==> |key| <= 11
  {
    assert Spells(key, "__proto__") ==> key == Ascii("__proto__");
    assert Spells(key, "prototype") ==> key == Ascii("prototype");
    assert Spells(key, "constructor") ==> key == Ascii("constructor");
  }

  /** What is wrong with an entry is its key. */
  lemma KeyFaultMeans(c: Child)
    ensures KeyFault(c) == Some(UnsafeKey) <==> c.key.Some? && ForbiddenKey(c.key.value)
    ensures KeyFault(c) == Some(OversizedKey) <==> c.key.Some? && |c.key.value| > 256
    ensures KeyFault(c).None? <==> c.key.None? || LegalKey(c.key.value)
    ensures KeyFault(c).Some? ==> KeyFault(c).value in {UnsafeKey, OversizedKey}
  {
    hide BlockedKey, ForbiddenKey;
    if c.key.Some? { KeysBlocked(c.key.value); }
  }

  predicate HasKeyFault(heap: Heap, id: Id, kind: Kind) {
    exists i :: 0 <= i < |Children(heap(id))| && KeyFault(Children(heap(id))[i]) == Some(kind)
  }

  lemma LocalKeyFaults(heap: Heap, id: Id, kind: Kind)
    requires !heap(id).Exotic?
    ensures kind in LocalFault(heap, Ref(id)) <==>
              HasKeyFault(heap, id, kind) || (|Children(heap(id))| > 10_000 && kind == if heap(id).Array? then ArrayTooLarge else TooManyKeys)
  {
    hide KeyFault;
    var cs := Children(heap(id));
    if HasKeyFault(heap, id, kind) {
      var i :| 0 <= i < |cs| && KeyFault(cs[i]) == Some(kind);
      assert cs[i] in cs;
    }
  }

  lemma LegalKeysOnly(heap: Heap, id: Id, kind: Kind)
    requires Legal(heap, Ref(id))
    ensures !HasKeyFault(heap, id, kind)
  {
    hide LegalKey, KeyFault;
    var cs := Children(heap(id));
    forall i | 0 <= i < |cs|
      ensures KeyFault(cs[i]) == None
    {
      KeyFaultMeans(cs[i]);
    }
  }

  /** A value is legal exactly when nothing is wrong with it by itself. */
  lemma LegalIff(heap: Heap, v: Value)
    ensures LocalFault(heap, v) == {} <==> Legal(heap, v)
  {
    hide KeyFault, LegalKey;
    if v.Ref? && !heap(v.id).Exotic? {
      hide LocalFault;
      var cs := Children(heap(v.id));
      forall kind
        ensures kind in LocalFault(heap, v) <==>
                  HasKeyFault(heap, v.id, kind) || (|cs| > 10_000 && kind == if heap(v.id).Array? then ArrayTooLarge else TooManyKeys)
      {
        LocalKeyFaults(heap, v.id, kind);
      }
      forall i | 0 <= i < |cs|
        ensures KeyFault(cs[i]).None? <==> cs[i].key.None? || LegalKey(cs[i].key.value)
        ensures KeyFault(cs[i]).Some? ==> HasKeyFault(heap, v.id, KeyFault(cs[i]).value)
      {
        KeyFaultMeans(cs[i]);
      }
      if Legal(heap, v) {
        forall kind
          ensures kind !in LocalFault(heap, v)
        {
          LegalKeysOnly(heap, v.id, kind);
        }
      } else if |cs| <= 10_000 {
        var i :| 0 <= i < |heap(v.id).entries| && !LegalKey(heap(v.id).entries[i].0);
        assert KeyFault(cs[i]).value in LocalFault(heap, v);
      } else {
        assert (if heap(v.id).Array? then ArrayTooLarge else TooManyKeys) in LocalFault(heap, v);
      }
    }
  }

  /** What the kinds of fault say. */
  predicate Faulty(heap: Heap, v: Value, kind: Kind) {
    match kind
    case NotFinite => v == Number(false)
    case NotSerializable => v.Other?
    case NotPlain => v.Ref? && heap(v.id).Exotic?
    case ArrayTooLarge => v.Ref? && heap(v.id).Array? && |heap(v.id).items| > 10_000
    case TooManyKeys => v.Ref? && heap(v.id).Plain? && |heap(v.id).entries| > 10_000
    case UnsafeKey => v.Ref? && heap(v.id).Plain? && exists e :: e in heap(v.id).entries && ForbiddenKey(e.0)
    case OversizedKey => v.Ref? && heap(v.id).Plain? && exists e :: e in heap(v.id).entries && |e.0| > 256
    case TooDeep | Circular => false
  }

  lemma FaultySays(heap: Heap, v: Value, kind: Kind)
    requires kind in LocalFault(heap, v)
    ensures Faulty(heap, v, kind)
  {
    hide KeyFault, ForbiddenKey;
    if v.Ref? && !heap(v.id).Exotic? {
      LocalKeyFaults(heap, v.id, kind);
      hide LocalFault;
      var cs := Children(heap(v.id));
      if i :| 0 <= i < |cs| && KeyFault(cs[i]) == Some(kind) {
        KeyFaultMeans(cs[i]);
        assert heap(v.id).Plain?;
        assert heap(v.id).entries[i] in heap(v.id).entries;
      }
    }
  }

  /** A value refused is refused for what is wrong at the path reported: its depth, a second way to it, or the value itself. */
  lemma RefusedFor(heap: Heap, v: Value)
    requires Check(heap, v, [], {}).Err?
    ensures var f := Check(heap, v, [], {}).error;
            && At(heap, v, f.path).Some?
            && var w := At(heap, v, f.path).value;
               if f.kind == TooDeep then |f.path| > 32
               else if f.kind == Circular then w.Ref? && exists q :: q != f.path && At(heap, v, q) == Some(w)
               else Faulty(heap, w, f.kind)
  {
    hide Faulty, LocalFault;
    FaultIsReal(heap, v, [], {});
    var f := Check(heap, v, [], {}).error;
    assert f.path[0..] == f.path;
    if f.kind != TooDeep && f.kind != Circular { FaultySays(heap, At(heap, v, f.path).value, f.kind); }
  }

  /**
   For a whole value: accepted exactly when every path is at most 32 long and
   leads to a legal value, and no container has two paths to it.
   */
  lemma AcceptsTrees(heap: Heap, v: Value)
    ensures Check(heap, v, [], {}).Ok? <==>
            && (forall p :: At(heap, v, p).Some? ==> |p| <= 32 && Legal(heap, At(heap, v, p).value))
            && (forall p, q :: SameContainer(At(heap, v, p), At(heap, v, q)) ==> p == q)
  {
    hide LocalFault, Legal;
    CheckMeaning(heap, v, [], {});
    forall w: Value
      ensures LocalFault(heap, w) == {} <==> Legal(heap, w)
    {
      LegalIff(heap, w);
    }
  }

  /** What is rejected as circular need not be: one object held twice is enough. */
  lemma SharedIsCircular()
    ensures exists heap: Heap, v: Value ::
              && (forall p :: |p| > 1 ==> At(heap, v, p) == None)
              && Check(heap, v, [], {}) == Err(Fault([1], Circular))
  {
    var heap: Heap := id => if id == 0 then Array([Ref(1), Ref(1)]) else Array([]);
    var v := Ref(0);
    var cs := Children(heap(0));
    forall p: Path | |p| > 1
      ensures At(heap, v, p) == None
    {
      assert p[1..] != [] && Children(heap(1)) == [];
      assert cs[0].value == cs[1].value == Ref(1);
      assert At(heap, Ref(1), p[1..]) == None;
    }
    assert Check(heap, Ref(1), [0], {0}) == CheckFrom(heap, [], 0, [0], {0, 1}) by {
      assert {0} + {1} == {0, 1};
    }
    assert Check(heap, Ref(1), [1], {0, 1}) == Err(Fault([1], Circular));
    assert [] + [0] == [0] && [] + [1] == [1];
    assert CheckFrom(heap, cs, 1, [], {0, 1}) == Err(Fault([1], Circular));
    assert CheckFrom(heap, cs, 0, [], {0}) == Err(Fault([1], Circular));
    assert {} + {0} == {0};
    assert Check(heap, v, [], {}) == Err(Fault([1], Circular));
  }
}
