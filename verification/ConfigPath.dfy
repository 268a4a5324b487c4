/** Writing one setting deep inside a node's config: `setPath` copies the objects on the way and shares the rest. */
module ConfigPath {
  import opened Numerals

  // ---- config values ----

  /** A value read from JSON. An array is a record of its elements under their indices, marked as a list; its length is
      how many there are. */
  datatype Value =
    | Undefined
    | Null
    | Flag(flag: bool)
    | Number(number: real)
    | Text(text: string)
    | Record(list: bool, fields: map<string, Value>)

  /** `v[key]` for an own key, and undefined for any other. */
  function Field(fields: map<string, Value>, key: string): Value {
    if key in fields then fields[key] else Undefined
  }

  /** The characters of a string under their indices. */
  function Letters(text: string): map<string, Value> {
    if text == "" then map[]
    else var n := |text| - 1; Letters(text[..n])[Decimal(n) := Text([text[n]])]
  }

  /** `{ ...(v ?? {}) }`: a record's or an array's own fields, a string's characters, nothing of the rest. */
  function Spread(v: Value): map<string, Value> {
    match v
    case Record(_, fields) => fields
    case Text(text) => Letters(text)
    case _ => map[]
  }

  /** `v?.[key]`: an own field, the length of an array or a string, and undefined for anything else. */
  function Read(v: Value, key: string): Value {
    if key in Spread(v) then Spread(v)[key]
    else if key != "length" then Undefined
    else match v
      case Record(true, fields) => Number(|fields| as real)
      case Text(text) => Number(|text| as real)
      case _ => Undefined
  }

  /** Reading along a path. */
  function Get(v: Value, path: seq<string>): Value
    decreases |path|
  {
    if path == [] then v else Get(Read(v, path[0]), path[1..])
  }

  function Object(fields: map<string, Value>): Value {
    Record(false, fields)
  }

  /** The key the value goes under: an empty path has no last element, which reads as the key "undefined". */
  function LastKey(path: seq<string>): string {
    if path == [] then "undefined" else path[|path| - 1]
  }

  /** The config after the write. */
  function Set(fields: map<string, Value>, path: seq<string>, value: Value): map<string, Value>
    decreases |path|
  {
    if |path| <= 1 then fields[LastKey(path) := value]
    else fields[path[0] := Object(Set(Spread(Field(fields, path[0])), path[1..], value))]
  }

  // ---- laws ----

  /** What was written is what is read, exactly where the path is not empty: an empty path does not stand for the whole
      config, and the value lands under the key "undefined". */
  lemma {:induction false} ReadsBack(fields: map<string, Value>, path: seq<string>, value: Value)
    ensures Get(Object(Set(fields, path, value)), path) == value <==> path != []
    decreases |path|
  {
    if path == [] {
      NotItsOwnPart(value, "undefined");
    } else if |path| > 1 {
      ReadsBack(Spread(Field(fields, path[0])), path[1..], value);
    }
  }

  lemma {:induction false} NotItsOwnPart(v: Value, key: string)
    ensures v.Record? && key in v.fields ==> v.fields[key] != v
    decreases v
  {
    if v.Record? && key in v.fields { NotItsOwnPart(v.fields[key], key); }
  }

  /** What a write puts in place of the field it starts with. */
  function Replaced(field: Value, path: seq<string>, value: Value): Value
    requires path != []
  {
    if |path| == 1 then value else Object(Set(Spread(field), path[1..], value))
  }

  lemma {:induction false} SetIsReplace(fields: map<string, Value>, path: seq<string>, value: Value)
    requires path != []
    ensures Set(fields, path, value) == fields[path[0] := Replaced(Field(fields, path[0]), path, value)]
  {
  }

  /** Neither path leads through the other's end. */
  predicate Diverge(p: seq<string>, q: seq<string>) {
    !(p <= q) && !(q <= p)
  }

  lemma {:induction false} DivergeBelow(p: seq<string>, q: seq<string>)
    requires Diverge(p, q) && p[0] == q[0]
    ensures |p| > 1 && |q| > 1 && Diverge(p[1..], q[1..])
  {
  }

  /** An array or a string, whose length is an own property that spreading leaves behind. */
  predicate HasLength(v: Value) {
    (v.Text? || (v.Record? && v.list)) && "length" !in Spread(v)
  }

  /** The other path reads the length of something the write turns into a plain object on its way. */
  predicate ReadsLostLength(fields: map<string, Value>, path: seq<string>, other: seq<string>) {
    var n := |other| - 1;
    0 < n < |path| && other == path[..n] + ["length"] && HasLength(Get(Object(fields), path[..n]))
  }

  /** Spreading keeps every reading but that of a length. */
  lemma {:induction false} SpreadReads(v: Value, q: seq<string>)
    requires q != []
    ensures Get(Object(Spread(v)), q) == Get(v, q) <==> !(q == ["length"] && HasLength(v))
  {
    if q[0] == "length" && |q| > 1 && HasLength(v) { NothingBelow(q[1..]); }
  }

  lemma {:induction false} NothingBelow(q: seq<string>)
    requires q != []
    ensures Get(Undefined, q) == Undefined && forall n :: Get(Number(n), q) == Undefined
    decreases |q|
  {
    if |q| > 1 { NothingBelow(q[1..]); }
  }

  lemma {:induction false} GetStep(fields: map<string, Value>, path: seq<string>)
    requires path != []
    ensures Get(Object(fields), path) == Get(Field(fields, path[0]), path[1..])
  {
  }

  lemma {:induction false} PartsSoon(fields: map<string, Value>, path: seq<string>, other: seq<string>)
    requires Diverge(path, other)
    ensures path != [] && other != [] && (path[0] != other[0] ==> !ReadsLostLength(fields, path, other))
  {
  }

  /** Past the first step, a lost length is that of the value found there, or one lost below it. */
  lemma {:induction false} LostBelow(fields: map<string, Value>, path: seq<string>, other: seq<string>)
    requires |path| > 1 && |other| > 1 && path[0] == other[0]
    ensures var v := Field(fields, path[0]);
            (ReadsLostLength(fields, path, other)
             <==> (other[1..] == ["length"] && HasLength(v)) || ReadsLostLength(Spread(v), path[1..], other[1..]))
            && (other[1..] == ["length"] ==> !ReadsLostLength(Spread(v), path[1..], other[1..]))
  {
    hide HasLength;
    var v, n := Field(fields, path[0]), |other| - 1;
    assert other == [path[0]] + other[1..];
    if 0 < n < |path| {
      var front, below := path[..n], path[1..][..n - 1];
      assert front == [path[0]] + below && front[1..] == below;
      assert front + ["length"] == [path[0]] + (below + ["length"]);
      assert other == front + ["length"] <==> other[1..] == below + ["length"];
      if n > 1 {
        SpreadReads(v, below);
        NumbersHaveNone(v);
        assert below == ["length"] ==> Get(v, below) == Read(v, "length");
        assert below == ["length"] ==> Get(Object(Spread(v)), below) == Read(Object(Spread(v)), "length");
      } else {
        assert below == [] && below + ["length"] == ["length"];
        GetStep(fields, front);
      }
    }
  }

  lemma {:induction false} NumbersHaveNone(v: Value)
    ensures HasLength(v) ==> !HasLength(Read(v, "length")) && !HasLength(Read(Object(Spread(v)), "length"))
  {
  }

  /** A path that parts from the one written reads as before, exactly when it is not the length of an array or a string
      that the written path runs through. */
  lemma {:induction false} OthersKept(fields: map<string, Value>, path: seq<string>, value: Value, other: seq<string>)
    requires Diverge(path, other)
    ensures Get(Object(Set(fields, path, value)), other) == Get(Object(fields), other)
            <==> !ReadsLostLength(fields, path, other)
    decreases |path|
  {
    hide Get, Set, Spread, HasLength, ReadsLostLength, Diverge;
    PartsSoon(fields, path, other);
    GetStep(fields, other);
    GetStep(Set(fields, path, value), other);
    SetIsReplace(fields, path, value);
    if path[0] == other[0] {
      var below := Spread(Field(fields, path[0]));
      DivergeBelow(path, other);
      OthersKept(below, path[1..], value, other[1..]);
      SpreadReads(Field(fields, path[0]), other[1..]);
      LostBelow(fields, path, other);
    }
  }

  /** Every step before the last finds a plain object, or nothing: the paths the node editor writes. */
  predicate ThroughObjects(fields: map<string, Value>, path: seq<string>)
    decreases |path|
  {
    |path| > 1 && path[0] in fields ==>
      var next := fields[path[0]];
      next.Record? && !next.list && ThroughObjects(next.fields, path[1..])
  }

  /** What such a path runs through has no length to lose. */
  lemma {:induction false} NoLengthOnTheWay(fields: map<string, Value>, path: seq<string>, n: nat)
    requires ThroughObjects(fields, path) && 0 < n < |path|
    ensures !HasLength(Get(Object(fields), path[..n]))
    decreases |path|
  {
    GetStep(fields, path[..n]);
    var next := Field(fields, path[0]);
    assert path[..n][1..] == path[1..][..n - 1];
    if path[0] !in fields {
      if n > 1 { NothingBelow(path[1..][..n - 1]); }
    } else if n > 1 {
      NoLengthOnTheWay(next.fields, path[1..], n - 1);
    }
  }

  /** So on the editor's paths every diverging path reads as before. */
  lemma {:induction false} EditsKeepOthers(fields: map<string, Value>, path: seq<string>, value: Value,
                                           other: seq<string>)
    requires ThroughObjects(fields, path) && Diverge(path, other)
    ensures Get(Object(Set(fields, path, value)), other) == Get(Object(fields), other)
  {
    OthersKept(fields, path, value, other);
    if ReadsLostLength(fields, path, other) { NoLengthOnTheWay(fields, path, |other| - 1); }
  }

  /** And each of them is such a path again for the next edit. */
  lemma {:induction false} EditsStayOpen(fields: map<string, Value>, path: seq<string>, value: Value,
                                         other: seq<string>)
    requires ThroughObjects(fields, path) && ThroughObjects(fields, other) && Diverge(path, other)
    ensures ThroughObjects(Set(fields, path, value), other)
    decreases |path|
  {
    hide Set;
    SetIsReplace(fields, path, value);
    if path[0] == other[0] {
      DivergeBelow(path, other);
      EditsStayOpen(Spread(Field(fields, path[0])), path[1..], value, other[1..]);
    }
  }

  /** The second of two writes to one path leaves no trace of the first. */
  lemma {:induction false} LastWriteWins(fields: map<string, Value>, path: seq<string>, first: Value, second: Value)
    ensures Set(Set(fields, path, first), path, second) == Set(fields, path, second)
    decreases |path|
  {
    if |path| > 1 { LastWriteWins(Spread(Field(fields, path[0])), path[1..], first, second); }
  }

  /** Writes to diverging paths can be made in either order. */
  lemma {:induction false} WritesCommute(fields: map<string, Value>, p: seq<string>, a: Value, q: seq<string>, b: Value)
    requires Diverge(p, q)
    ensures Set(Set(fields, p, a), q, b) == Set(Set(fields, q, b), p, a)
    decreases |p|
  {
    hide Set;
    SetIsReplace(fields, p, a);
    SetIsReplace(fields, q, b);
    SetIsReplace(Set(fields, p, a), q, b);
    SetIsReplace(Set(fields, q, b), p, a);
    if p[0] == q[0] {
      DivergeBelow(p, q);
      WritesCommute(Spread(Field(fields, p[0])), p[1..], a, q[1..], b);
    }
  }

  /** Every step before the last is a plain object, and the last key is set. */
  predicate Plain(fields: map<string, Value>, path: seq<string>)
    requires path != []
    decreases |path|
  {
    path[0] in fields
    && (|path| > 1 ==>
          var next := fields[path[0]];
          next.Record? && !next.list && Plain(next.fields, path[1..]))
  }

  /** Writing back what is there changes nothing exactly when the path runs through plain objects to a key that is
      set: a null, a string or an array on the way is replaced by an object, and an unset key becomes an undefined
      one. */
  lemma {:induction false} WritingBack(fields: map<string, Value>, path: seq<string>)
    requires path != []
    ensures Set(fields, path, Get(Object(fields), path)) == fields <==> Plain(fields, path)
    decreases |path|
  {
    var key, next, there := path[0], Field(fields, path[0]), Get(Object(fields), path);
    if |path| > 1 {
      var written := Object(Set(Spread(next), path[1..], there));
      assert Set(fields, path, there) == fields[key := written];
      WritingBack(Spread(next), path[1..]);
      if fields[key := written] == fields {
        assert fields[key] == written;
        assert next == Object(Spread(next));
      }
    } else if fields[key := next] == fields {
      assert key in fields[key := next];
    }
  }

  /** Writing back an array's element turns the array into an object, and its length is gone. */
  lemma {:induction false} WritingBackAnElement(one: Value)
    ensures var fields := map["a" := Record(true, map["0" := one])];
            var after := Set(fields, ["a", "0"], Get(Object(fields), ["a", "0"]));
            after == map["a" := Object(map["0" := one])] && after != fields
            && Get(Object(fields), ["a", "length"]) == Number(1.0) && Get(Object(after), ["a", "length"]) == Undefined
  {
    var list := map["0" := one];
    var fields := map["a" := Record(true, list)];
    assert ["a", "0"][1..] == ["0"] && ["a", "length"][1..] == ["length"] && ["0"][1..] == [] && ["length"][1..] == [];
    assert Get(Record(true, list), ["0"]) == Get(one, []) == one;
    assert Get(Object(fields), ["a", "0"]) == Get(Record(true, list), ["0"]);
    assert Set(list, ["0"], one) == list["0" := one] == list;
    var after := Set(fields, ["a", "0"], one);
    assert after == fields["a" := Object(list)] && after["a"] != fields["a"];
    assert Get(Object(fields), ["a", "length"]) == Get(Record(true, list), ["length"]);
    assert Get(Object(after), ["a", "length"]) == Get(Object(list), ["length"]);
    assert Get(Object(list), ["length"]) == Get(Undefined, []);
    assert |list| == 1 && Get(Record(true, list), ["length"]) == Get(Number(1.0), []);
  }
}
