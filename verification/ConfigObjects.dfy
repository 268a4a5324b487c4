/** `setPath` on the heap: a loop that writes into fresh copies only, proved to build what ConfigPath.Set says. */
module ConfigObjects {
  import opened Numerals
  import opened ConfigPath

  /** A plain object, or an array when marked as a list. */
  class JsObject {
    const list: bool
    var fields: map<string, Ref>

    constructor (list: bool, fields: map<string, Ref>)
      ensures this.list == list && this.fields == fields
    {
      this.list, this.fields := list, fields;
    }
  }

  /** What a field holds: a value without fields of its own, or a reference. */
  datatype Ref = Scalar(value: Value) | To(target: JsObject)

  /** The reference stands for the value, reaching only objects of the world. */
  ghost predicate Means(world: set<JsObject>, ref: Ref, v: Value)
    reads world
    decreases v
  {
    match v
    case Record(list, fields) =>
      ref.To? && ref.target in world && ref.target.list == list
      && ref.target.fields.Keys == fields.Keys
      && forall k :: k in fields ==> Means(world, ref.target.fields[k], fields[k])
    case _ => ref == Scalar(v)
  }

  ghost predicate FieldsMean(world: set<JsObject>, refs: map<string, Ref>, fields: map<string, Value>)
    reads world
  {
    refs.Keys == fields.Keys && forall k :: k in fields ==> Means(world, refs[k], fields[k])
  }

  lemma {:induction false} MeansMore(world: set<JsObject>, more: set<JsObject>, ref: Ref, v: Value)
    requires Means(world, ref, v) && world <= more
    ensures Means(more, ref, v)
    decreases v
  {
    if v.Record? {
      forall k | k in v.fields ensures Means(more, ref.target.fields[k], v.fields[k]) {
        MeansMore(world, more, ref.target.fields[k], v.fields[k]);
      }
    }
  }

  lemma {:induction false} FieldsMore(world: set<JsObject>, more: set<JsObject>, refs: map<string, Ref>,
                                      fields: map<string, Value>, key: string, ref: Ref, v: Value)
    requires FieldsMean(world, refs, fields) && Means(more, ref, v) && world <= more
    ensures FieldsMean(more, refs[key := ref], fields[key := v])
  {
    forall k | k in fields ensures Means(more, refs[k], fields[k]) { MeansMore(world, more, refs[k], fields[k]); }
  }

  function LetterRefs(text: string): map<string, Ref> {
    if text == "" then map[]
    else var n := |text| - 1; LetterRefs(text[..n])[Decimal(n) := Scalar(Text([text[n]]))]
  }

  lemma {:induction false} LettersMean(world: set<JsObject>, text: string)
    ensures FieldsMean(world, LetterRefs(text), Letters(text))
  {
    if text != "" { LettersMean(world, text[..|text| - 1]); }
  }

  /** `{ ...ref }`, for an object of the world. */
  function Copied(world: set<JsObject>, ref: Ref): map<string, Ref>
    reads world
  {
    match ref
    case To(target) => if target in world then target.fields else map[]
    case Scalar(Text(text)) => LetterRefs(text)
    case Scalar(_) => map[]
  }

  lemma {:induction false} CopyMeans(world: set<JsObject>, ref: Ref, v: Value)
    requires Means(world, ref, v)
    ensures FieldsMean(world, Copied(world, ref), Spread(v))
    ensures ref.To? ==> ref.target in world
  {
    match v
    case Text(text) => LettersMean(world, text);
    case _ =>
  }

  function RefAt(refs: map<string, Ref>, key: string): Ref {
    if key in refs then refs[key] else Scalar(Undefined)
  }

  /** The references the walk finds i steps down. */
  function RefLevel(world: set<JsObject>, refs: map<string, Ref>, path: seq<string>, i: nat): map<string, Ref>
    requires i < |path| || i == 0
    reads world
  {
    if i == 0 then refs else Copied(world, RefAt(RefLevel(world, refs, path, i - 1), path[i - 1]))
  }

  /** The fields the walk finds i steps down. */
  function Level(fields: map<string, Value>, path: seq<string>, i: nat): map<string, Value>
    requires i < |path| || i == 0
  {
    if i == 0 then fields else Spread(Field(Level(fields, path, i - 1), path[i - 1]))
  }

  lemma {:induction false} LevelMeans(world: set<JsObject>, refs: map<string, Ref>, fields: map<string, Value>,
                                      path: seq<string>, i: nat)
    requires FieldsMean(world, refs, fields) && (i < |path| || i == 0)
    ensures FieldsMean(world, RefLevel(world, refs, path, i), Level(fields, path, i))
  {
    hide Means;
    if i > 0 {
      LevelMeans(world, refs, fields, path, i - 1);
      var found, ref := Level(fields, path, i - 1), RefAt(RefLevel(world, refs, path, i - 1), path[i - 1]);
      RefMeans(world, RefLevel(world, refs, path, i - 1), found, path[i - 1]);
      CopyMeans(world, ref, Field(found, path[i - 1]));
    }
  }

  lemma {:induction false} RefMeans(world: set<JsObject>, refs: map<string, Ref>, fields: map<string, Value>,
                                    key: string)
    requires FieldsMean(world, refs, fields)
    ensures Means(world, RefAt(refs, key), Field(fields, key))
  {
  }

  /** A copy of what was found: the same references, but for the one at the step, which leads to the next copy. */
  ghost predicate Links(refs: map<string, Ref>, key: string, copy: JsObject, next: JsObject)
    reads copy
  {
    !copy.list && copy.fields == refs[key := To(next)]
  }

  /** The copies made so far, each linked to the next. */
  ghost predicate Chained(world: set<JsObject>, refs: map<string, Ref>, path: seq<string>,
                          copies: seq<JsObject>, i: nat)
    requires i < |copies| && (i == 0 || i < |path|)
    reads world, copies[..i]
  {
    forall j :: 0 <= j < i ==> Links(RefLevel(world, refs, path, j), path[j], copies[j], copies[j + 1])
  }

  /** The finished write: one copy for each object on the way, the value in the last, and beside the way the very
      references the input held. */
  ghost predicate Written(world: set<JsObject>, refs: map<string, Ref>, path: seq<string>, value: Ref,
                          copies: seq<JsObject>)
    reads world, copies
  {
    |copies| == (if path == [] then 1 else |path|)
    && Chained(world, refs, path, copies, |copies| - 1)
    && !copies[|copies| - 1].list
    && copies[|copies| - 1].fields == RefLevel(world, refs, path, |copies| - 1)[LastKey(path) := value]
  }

  lemma {:induction false} ChainMore(world: set<JsObject>, refs: map<string, Ref>, path: seq<string>,
                                     copies: seq<JsObject>, i: nat, next: JsObject)
    requires |copies| == i + 1 && i + 1 < |path| && Chained(world, refs, path, copies, i)
    requires Links(RefLevel(world, refs, path, i), path[i], copies[i], next)
    ensures Chained(world, refs, path, copies + [next], i + 1)
  {
    hide Links, RefLevel;
    var longer := copies + [next];
    forall j | 0 <= j < i + 1 ensures Links(RefLevel(world, refs, path, j), path[j], longer[j], longer[j + 1]) {
      if j < i { assert Links(RefLevel(world, refs, path, j), path[j], copies[j], copies[j + 1]); }
    }
  }

  /** Each copy of a finished write means what the write makes of the fields found there. */
  lemma {:induction false} CopyMeansSet(world: set<JsObject>, more: set<JsObject>, refs: map<string, Ref>,
                                        fields: map<string, Value>, path: seq<string>, value: Ref, v: Value,
                                        copies: seq<JsObject>, j: nat)
    requires FieldsMean(world, refs, fields) && Means(world, value, v) && Written(world, refs, path, value, copies)
    requires j < |copies| && world <= more && (forall c :: c in copies ==> c in more)
    ensures !copies[j].list && FieldsMean(more, copies[j].fields, Set(Level(fields, path, j), path[j..], v))
    decreases |copies| - j
  {
    hide Means, FieldsMean, Level, RefLevel, Set;
    var found, here := Level(fields, path, j), RefLevel(world, refs, path, j);
    LevelMeans(world, refs, fields, path, j);
    if j == |copies| - 1 {
      MeansMore(world, more, value, v);
      FieldsMore(world, more, here, found, LastKey(path), value, v);
      SetLast(found, path[j..], v);
    } else {
      CopyMeansSet(world, more, refs, fields, path, value, v, copies, j + 1);
      assert Links(here, path[j], copies[j], copies[j + 1]);
      NextLevel(fields, path, j, v);
      var below := Set(Level(fields, path, j + 1), path[j + 1..], v);
      ObjectMeans(more, copies[j + 1], below);
      FieldsMore(world, more, here, found, path[j], To(copies[j + 1]), Object(below));
    }
  }

  lemma {:induction false} ObjectMeans(world: set<JsObject>, o: JsObject, fields: map<string, Value>)
    requires o in world && !o.list && FieldsMean(world, o.fields, fields)
    ensures Means(world, To(o), Object(fields))
  {
  }

  lemma {:induction false} SetLast(fields: map<string, Value>, path: seq<string>, v: Value)
    requires |path| <= 1
    ensures Set(fields, path, v) == fields[LastKey(path) := v]
  {
  }

  lemma {:induction false} NextLevel(fields: map<string, Value>, path: seq<string>, j: nat, v: Value)
    requires j + 1 < |path|
    ensures Set(Level(fields, path, j), path[j..], v)
            == Level(fields, path, j)[path[j] := Object(Set(Level(fields, path, j + 1), path[j + 1..], v))]
  {
    assert path[j..][1..] == path[j + 1..];
  }

  /** One turn of the loop: the field is copied, and the copy takes its place. */
  method Step(cur: JsObject, key: string, ghost world: set<JsObject>, ghost refs: map<string, Ref>)
    returns (nextClone: JsObject)
    requires cur !in world && !cur.list && cur.fields == refs
    requires RefAt(refs, key).To? ==> RefAt(refs, key).target in world
    modifies cur
    ensures fresh(nextClone) && !nextClone.list && nextClone.fields == Copied(world, RefAt(refs, key))
    ensures Links(refs, key, cur, nextClone)
  {
    var next := if key in cur.fields then cur.fields[key] else Scalar(Undefined);
    var spread: map<string, Ref> := map[];
    match next {
      case To(target) => spread := target.fields;
      case Scalar(Text(text)) => spread := LetterRefs(text);
      case Scalar(_) =>
    }
    nextClone := new JsObject(false, spread);
    cur.fields := cur.fields[key := To(nextClone)];
  }

  /** The config with the value written at the path, built of new objects on the way and the input's own references
      beside it. The method modifies nothing, so the input object and all it reaches stay as they were. */
  method SetPath(obj: JsObject, path: seq<string>, value: Ref,
                 ghost world: set<JsObject>, ghost fields: map<string, Value>, ghost v: Value)
    returns (clone: JsObject, ghost copies: seq<JsObject>)
    requires obj in world && FieldsMean(world, obj.fields, fields) && Means(world, value, v)
    ensures copies != [] && copies[0] == clone && fresh(copies)
    ensures Written(world, obj.fields, path, value, copies)
    ensures !clone.list && FieldsMean(world + (set c | c in copies), clone.fields, Set(fields, path, v))
  {
    hide FieldsMean, Means, Links, Chained, RefLevel, Level, Set;
    clone := new JsObject(false, obj.fields);
    var cur := clone;
    var i := 0;
    copies := [clone];
    ChainStarts(world, obj.fields, path, copies);
    while i < |path| - 1
      invariant 0 <= i && (i < |path| || i == 0) && |copies| == i + 1 && copies[i] == cur && copies[0] == clone
      invariant fresh(copies) && !cur.list && forall j :: 0 <= j < i ==> copies[j] != cur
      invariant Chained(world, obj.fields, path, copies, i)
      invariant cur.fields == RefLevel(world, obj.fields, path, i)
    {
      ghost var refs := cur.fields;
      TargetIsThere(world, obj.fields, fields, path, i);
      var next := Step(cur, path[i], world, refs);
      ChainMore(world, obj.fields, path, copies, i, next);
      LevelNext(world, obj.fields, path, i);
      copies := copies + [next];
      cur := next;
      i := i + 1;
    }
    var lastKey := if path == [] then "undefined" else path[|path| - 1];
    cur.fields := cur.fields[lastKey := value];
    assert Written(world, obj.fields, path, value, copies);
    CopyMeansSet(world, world + (set c | c in copies), obj.fields, fields, path, value, v, copies, 0);
    LevelIs(fields, path);
    assert path[0..] == path;
  }

  lemma {:induction false} ChainStarts(world: set<JsObject>, refs: map<string, Ref>, path: seq<string>,
                                       copies: seq<JsObject>)
    requires copies != []
    ensures Chained(world, refs, path, copies, 0) && RefLevel(world, refs, path, 0) == refs
  {
  }

  lemma {:induction false} LevelIs(fields: map<string, Value>, path: seq<string>)
    ensures Level(fields, path, 0) == fields
  {
  }

  lemma {:induction false} LevelNext(world: set<JsObject>, refs: map<string, Ref>, path: seq<string>, i: nat)
    requires i + 1 < |path|
    ensures RefLevel(world, refs, path, i + 1) == Copied(world, RefAt(RefLevel(world, refs, path, i), path[i]))
  {
  }

  lemma {:induction false} TargetIsThere(world: set<JsObject>, refs: map<string, Ref>, fields: map<string, Value>,
                                         path: seq<string>, i: nat)
    requires FieldsMean(world, refs, fields) && i < |path|
    ensures var ref := RefAt(RefLevel(world, refs, path, i), path[i]); ref.To? ==> ref.target in world
  {
    hide RefLevel, Level;
    LevelMeans(world, refs, fields, path, i);
    RefMeans(world, RefLevel(world, refs, path, i), Level(fields, path, i), path[i]);
    CopyMeans(world, RefAt(RefLevel(world, refs, path, i), path[i]), Field(Level(fields, path, i), path[i]));
  }
}
