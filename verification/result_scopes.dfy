/**
 Scope discipline of the result store, as the command dispatcher uses it:
 every child command is run between a `push` and a `pop` of its slot key,
 and writes only through `result[key] = value`.

 `Step` describes such a well-nested run. The properties proved here are
 the ones the dispatcher relies on: a child call returns the result to the
 frame that was current before it, with the same execution frames, and the
 only entry of that frame (or of any ancestor) the call can change is the
 child's own slot.
 */
module ResultScopes {
  import opened Wrappers
  import opened Values
  import opened Constants
  import opened Results

  /** One action of a command body: a write to the current frame, or a child
      command run under a slot key (nil merges into the current frame). */
  datatype Step =
    | Write(key: Value, val: Value)
    | Call(slot: Value, cmd: string, body: seq<Step>)

  /** Two frames agree everywhere except, possibly, under `k`, and list the
      same keys in the same order. */
  ghost predicate SameOffKey(a: Value, b: Value, k: Value)
    requires a.Hash? && b.Hash?
  {
    && Keys(a.entries) == Keys(b.entries)
    && forall j :: j != k ==> Lookup(a.entries, j) == Lookup(b.entries, j)
  }

  /** Every frame strictly above the end of `path` is unchanged except in the
      entry that leads down the path. */
  ghost predicate AncestorsKept(a: Value, b: Value, path: seq<Value>)
    requires ValidPath(a, path) && ValidPath(b, path)
    decreases |path|
  {
    |path| == 0 ||
    (SameOffKey(a, b, path[0]) &&
     AncestorsKept(Lookup(a.entries, path[0]), Lookup(b.entries, path[0]), path[1..]))
  }

  lemma {:induction false} AncestorsKeptRefl(a: Value, path: seq<Value>)
    requires ValidPath(a, path)
    ensures AncestorsKept(a, a, path)
    decreases |path|
  {
    if |path| > 0 {
      AncestorsKeptRefl(Lookup(a.entries, path[0]), path[1..]);
    }
  }

  lemma {:induction false} AncestorsKeptTrans(a: Value, b: Value, c: Value, path: seq<Value>)
    requires ValidPath(a, path) && ValidPath(b, path) && ValidPath(c, path)
    requires AncestorsKept(a, b, path) && AncestorsKept(b, c, path)
    ensures AncestorsKept(a, c, path)
    decreases |path|
  {
    if |path| > 0 {
      AncestorsKeptTrans(Lookup(a.entries, path[0]), Lookup(b.entries, path[0]),
                         Lookup(c.entries, path[0]), path[1..]);
    }
  }

  /** Extending the path by one key adds one more frame to the comparison:
      the one the shorter path ends at. */
  lemma {:induction false} AncestorsKeptSnoc(a: Value, b: Value, path: seq<Value>, k: Value)
    requires ValidPath(a, path + [k]) && ValidPath(b, path + [k])
    ensures ValidPath(a, path) && ValidPath(b, path)
    ensures AncestorsKept(a, b, path + [k]) <==>
      AncestorsKept(a, b, path) && SameOffKey(FrameAt(a, path), FrameAt(b, path), k)
    decreases |path|
  {
    ValidPathPrefix(a, path + [k], |path|);
    ValidPathPrefix(b, path + [k], |path|);
    assert (path + [k])[..|path|] == path;
    if |path| > 0 {
      assert (path + [k])[0] == path[0];
      assert (path + [k])[1..] == path[1..] + [k];
      AncestorsKeptSnoc(Lookup(a.entries, path[0]), Lookup(b.entries, path[0]), path[1..], k);
    } else {
      assert (path + [k])[1..] == [];
    }
  }

  /** A write to the frame at the end of `path` keeps every ancestor. */
  lemma {:induction false} WriteAtKeepsAncestors(v: Value, path: seq<Value>, key: Value, val: Value)
    requires ValidPath(v, path)
    ensures AncestorsKept(v, WriteAt(v, path, key, val), path)
    decreases |path|
  {
    if |path| > 0 {
      var r := WriteAt(v, path, key, val);
      var child := Lookup(v.entries, path[0]);
      assert Lookup(r.entries, path[0]) == WriteAt(child, path[1..], key, val);
      WriteAtKeepsAncestors(child, path[1..], key, val);
    }
  }

  /** A push changes no frame above the current one. */
  lemma PushKeepsAncestors(r: Res, k: Value, c: string)
    requires Valid(r) && CanPush(r, k)
    ensures ValidPath(Push(r, k, c).root, r.path)
    ensures AncestorsKept(r.root, Push(r, k, c).root, r.path)
  {
    if !Truthy(k) || HasKey(Current(r).entries, k) {
      AncestorsKeptRefl(r.root, r.path);
    } else {
      WriteAtKeepsAncestors(r.root, r.path, k, Hash([]));
    }
  }

  /** What a completed step or body leaves as it was: the current path, the
      logging state (execution frames included), the outcome, and every
      ancestor frame apart from the entries leading to the current frame. */
  ghost predicate Preserves(r: Res, r': Res)
    requires Valid(r) && Valid(r')
  {
    && r'.path == r.path
    && r'.tracing == r.tracing
    && r'.code == r.code && r'.lastError == r.lastError
    && AncestorsKept(r.root, r'.root, r.path)
  }

  lemma PreservesTrans(r1: Res, r2: Res, r3: Res)
    requires Valid(r1) && Valid(r2) && Valid(r3)
    requires Preserves(r1, r2) && Preserves(r2, r3)
    ensures Preserves(r1, r3)
  {
    AncestorsKeptTrans(r1.root, r2.root, r3.root, r1.path);
  }

  /** Runs one step; `None` when a child's slot already holds a non-hash,
      which the source would push and then misuse. */
  function RunStep(r: Res, s: Step): (o: Option<Res>)
    requires Valid(r)
    ensures o.Some? ==> Valid(o.value) && Preserves(r, o.value)
    decreases s, 1
  {
    match s
    case Write(k, v) =>
      var r' := Set(r, k, v);
      WriteAtKeepsAncestors(r.root, r.path, k, v);
      Some(r')
    case Call(k, c, body) =>
      if !CanPush(r, k) then None
      else
        var r1 := Push(r, k, c);
        match RunBody(r1, s, 0)
        case None => None
        case Some(r2) =>
          if !Truthy(k) then Some(r2)
          else
            var r3 := Pop(r2, k);
            PushKeepsAncestors(r, k, c);
            AncestorsKeptSnoc(r1.root, r2.root, r.path, k);
            AncestorsKeptTrans(r.root, r1.root, r2.root, r.path);
            Some(r3)
  }

  /** Runs the steps of `parent`'s body from index `i` on. */
  function RunBody(r: Res, parent: Step, i: nat): (o: Option<Res>)
    requires Valid(r) && parent.Call? && i <= |parent.body|
    ensures o.Some? ==> Valid(o.value) && Preserves(r, o.value)
    decreases parent, 0, |parent.body| - i
  {
    if i == |parent.body| then
      AncestorsKeptRefl(r.root, r.path);
      Some(r)
    else
      match RunStep(r, parent.body[i])
      case None => None
      case Some(r1) =>
        match RunBody(r1, parent, i + 1)
        case None => None
        case Some(r2) =>
          PreservesTrans(r, r1, r2);
          Some(r2)
  }

  /** A child command run under a non-nil slot returns the result to the
      frame that was current before its push, with the same execution
      frames; that frame has gained (or kept) a hash under the slot, and
      every other entry is untouched. */
  lemma CallChangesOnlyItsSlot(r: Res, s: Step)
    requires Valid(r) && s.Call? && Truthy(s.slot)
    requires RunStep(r, s).Some?
    ensures var r' := RunStep(r, s).value;
      && r'.path == r.path && r'.tracing == r.tracing
      && HasKey(Current(r').entries, s.slot)
      && Lookup(Current(r').entries, s.slot).Hash?
      && (forall j :: j != s.slot ==> Lookup(Current(r').entries, j) == Lookup(Current(r).entries, j))
      && (forall j :: HasKey(Current(r').entries, j) <==> HasKey(Current(r).entries, j) || j == s.slot)
  {
    var k := s.slot;
    var r1 := Push(r, k, s.cmd);
    var r2 := RunBody(r1, s, 0).value;
    AncestorsKeptSnoc(r1.root, r2.root, r.path, k);
    var before := FrameAt(r1.root, r.path);
    var after := FrameAt(r2.root, r.path);
    assert SameOffKey(before, after, k);
    assert Current(RunStep(r, s).value) == after;
    FrameAtAppend(r2.root, r.path, k);
    assert HasKey(after.entries, k) by {
      assert HasKey(before.entries, k);
      assert k in Keys(before.entries) by {
        var i := IndexOf(before.entries, k).value;
        assert Keys(before.entries)[i] == k;
      }
      assert k in Keys(after.entries);
      var i :| 0 <= i < |Keys(after.entries)| && Keys(after.entries)[i] == k;
      assert after.entries[i].key == k;
    }
    forall j ensures HasKey(after.entries, j) <==> HasKey(before.entries, j) {
      IndexOfSameKeys(after.entries, before.entries, j);
    }
  }

  /** The result after the first child of both examples below. */
  function AfterFirstChild(): Res {
    Res(ResultCodeOk, Nil, Hash([Entry(Int(0), Hash([Entry(Sym("a"), Int(1))]))]), [], None)
  }

  /** The first child of both examples below: `push(0) a=1 pop` on a new
      result leaves `{0 => {a => 1}}` and is back at the root. */
  lemma FirstChildExample()
    ensures Pop(Set(Push(New(), Int(0), "Child"), Sym("a"), Int(1)), Int(0)) == AfterFirstChild()
  {
    var p1 := Push(New(), Int(0), "Child");
    assert p1.root == Hash([Entry(Int(0), Hash([]))]);
    assert p1.path == [Int(0)] && p1.path[1..] == [];
    assert Lookup(p1.root.entries, Int(0)) == Hash([]);
    assert WriteAt(Hash([]), [], Sym("a"), Int(1)) == Hash([Entry(Sym("a"), Int(1))]);
    var w1 := Set(p1, Sym("a"), Int(1));
    assert w1.root == Hash([Entry(Int(0), Hash([Entry(Sym("a"), Int(1))]))]);
  }

  /** The second child under a new slot gets a sub-frame of its own. */
  lemma SiblingStep()
    ensures var r2 := Pop(Set(Push(AfterFirstChild(), Int(1), "Child"), Sym("a"), Int(2)), Int(1));
      r2.path == [] && r2.root == Hash([Entry(Int(0), Hash([Entry(Sym("a"), Int(1))])),
                                        Entry(Int(1), Hash([Entry(Sym("a"), Int(2))]))])
  {
    var e0 := Entry(Int(0), Hash([Entry(Sym("a"), Int(1))]));
    var es1 := [e0, Entry(Int(1), Hash([]))];
    assert IndexOf([e0], Int(1)) == None;
    StoreCases([e0], Int(1), Hash([]));
    assert IndexOf([], Sym("a")) == None;
    StoreCases([], Sym("a"), Int(2));
    assert IndexOf(es1, Int(1)) == Some(1);
    StoreCases(es1, Int(1), Hash([Entry(Sym("a"), Int(2))]));
    var p2 := Push(AfterFirstChild(), Int(1), "Child");
    assert p2.root == Hash(es1);
    assert p2.path == [Int(1)] && p2.path[1..] == [];
    assert Lookup(p2.root.entries, Int(1)) == Hash([]);
    var child := WriteAt(Hash([]), [], Sym("a"), Int(2));
    assert child == Hash([Entry(Sym("a"), Int(2))]);
    assert WriteAt(Hash(es1), [Int(1)], Sym("a"), Int(2)) == Hash(Store(es1, Int(1), child));
    var w2 := Set(p2, Sym("a"), Int(2));
    assert w2.root == Hash(es1[1 := Entry(Int(1), child)]);
  }

  /** Two children pushed under different slots of one frame each keep
      their own sub-frame: `push(0) a=1 pop; push(1) a=2 pop` leaves
      `{0 => {a => 1}, 1 => {a => 2}}` in the parent. */
  lemma SiblingSlotsExample()
    ensures var r1 := Pop(Set(Push(New(), Int(0), "Child"), Sym("a"), Int(1)), Int(0));
            var r2 := Pop(Set(Push(r1, Int(1), "Child"), Sym("a"), Int(2)), Int(1));
            Current(r2) == Hash([Entry(Int(0), Hash([Entry(Sym("a"), Int(1))])),
                                 Entry(Int(1), Hash([Entry(Sym("a"), Int(2))]))])
  {
    FirstChildExample();
    SiblingStep();
  }

  /** The second child under the same slot writes into the first one's
      sub-frame. */
  lemma SameSlotStep()
    ensures var r2 := Pop(Set(Push(AfterFirstChild(), Int(0), "Child"), Sym("b"), Int(2)), Int(0));
      r2.path == [] && r2.root == Hash([Entry(Int(0), Hash([Entry(Sym("a"), Int(1)), Entry(Sym("b"), Int(2))]))])
  {
    var r1 := AfterFirstChild();
    var p2 := Push(r1, Int(0), "Child");
    assert p2.root == r1.root;
    assert p2.path == [Int(0)] && p2.path[1..] == [];
    assert Lookup(p2.root.entries, Int(0)) == Hash([Entry(Sym("a"), Int(1))]);
    assert WriteAt(Hash([Entry(Sym("a"), Int(1))]), [], Sym("b"), Int(2))
        == Hash([Entry(Sym("a"), Int(1)), Entry(Sym("b"), Int(2))]);
  }

  /** Pushing the same slot twice reuses its sub-frame, so the second
      child's writes accumulate next to the first child's. */
  lemma SameSlotAccumulatesExample()
    ensures var r1 := Pop(Set(Push(New(), Int(0), "Child"), Sym("a"), Int(1)), Int(0));
            var r2 := Pop(Set(Push(r1, Int(0), "Child"), Sym("b"), Int(2)), Int(0));
            Current(r2) == Hash([Entry(Int(0), Hash([Entry(Sym("a"), Int(1)), Entry(Sym("b"), Int(2))]))])
  {
    FirstChildExample();
    SameSlotStep();
  }
}
