/** `PyToMetadataValue` and `MetadataValueToPy`: what becomes of a Python value that is stored as
    metadata in C++ and read back. */
module Metadata {
  import opened Sequences

  const INT_MIN: int := -0x8000_0000
  const INT_MAX: int := 0x7FFF_FFFF

  /** From here on an int is too large for a C++ `double`: 2^1024 - 2^970. */
  const DOUBLE_LIMIT: int := TWO_TO_THE_512 * TWO_TO_THE_512 - TWO_TO_THE_485 * TWO_TO_THE_485

  const TWO_TO_THE_512: int := 0x100000000000000000000000000000000000000000000000000000000000000000000000000000000000000000000000000000000000000000000000000000000

  const TWO_TO_THE_485: int := 0x20000000000000000000000000000000000000000000000000000000000000000000000000000000000000000000000000000000000000000000000000

  /** Python values. `Table` is a dict whose keys and values are all strings, `Dict` any other;
      `Series` is a sequence that is not a list, `Opaque` anything else. */
  datatype PyValue =
    | PyNone
    | Bool(b: bool)
    | Int(n: int)
    | Float(x: real)
    | Str(s: string)
    | Table(m: map<string, string>)
    | Dict(entries: seq<(PyValue, PyValue)>)
    | List(items: seq<PyValue>)
    | Series(items: seq<PyValue>)
    | Opaque(id: nat)

  /** The alternatives of `MetadataVType`. */
  datatype Meta =
    | Nothing
    | Text(s: string)
    | Texts(ss: seq<string>)
    | Number(n: int)
    | Numbers(ns: seq<int>)
    | Double(x: real)
    | Doubles(xs: seq<real>)
    | TextMap(m: map<string, string>)

  predicate InRange(n: int) {
    INT_MIN <= n <= INT_MAX
  }

  predicate FitsDouble(v: PyValue) {
    v.Int? ==> -DOUBLE_LIMIT < v.n < DOUBLE_LIMIT
  }

  /** `str(value)`; `show` says what it is for values that are not strings. */
  function StrOf(v: PyValue, show: PyValue -> string): string {
    if v.Str? then v.s else show(v)
  }

  function StrOfAll(show: PyValue -> string): PyValue -> string {
    v => StrOf(v, show)
  }

  predicate Numeric(v: PyValue) {
    v.Int? || v.Float? || v.Bool?
  }

  function AsReal(v: PyValue): real {
    match v
    case Int(n) => n as real
    case Float(x) => x
    case Bool(b) => if b then 1.0 else 0.0
    case _ => 0.0
  }

  function AsInt(v: PyValue): int {
    match v
    case Int(n) => n
    case Bool(b) => if b then 1 else 0
    case _ => 0
  }

  /** A dict with its keys and values turned into strings; of equal keys the first one counts. */
  function TextEntries(entries: seq<(PyValue, PyValue)>, show: PyValue -> string): map<string, string> {
    if entries == [] then map[]
    else
      var before, e := TextEntries(entries[..|entries| - 1], show), entries[|entries| - 1];
      if StrOf(e.0, show) in before then before else before[StrOf(e.0, show) := StrOf(e.1, show)]
  }

  predicate AllStr(items: seq<PyValue>) {
    forall v :: v in items ==> v.Str?
  }

  predicate AllInt(items: seq<PyValue>) {
    forall v :: v in items ==> v.Int?
  }

  predicate AllNumeric(items: seq<PyValue>) {
    forall v :: v in items ==> Numeric(v)
  }

  /** What a sequence is stored as; nothing when an int does not fit. */
  function StoredItems(items: seq<PyValue>, show: PyValue -> string): Option<Meta> {
    if AllStr(items) then Some(Texts(Map(items, StrOfAll(show))))
    else if AllInt(items) then
      if forall v :: v in items ==> InRange(v.n) then Some(Numbers(Map(items, AsInt))) else None
    else if AllNumeric(items) then
      if forall v :: v in items ==> FitsDouble(v) then Some(Doubles(Map(items, AsReal))) else None
    else Some(Texts(Map(items, StrOfAll(show))))
  }

  function Stored(v: PyValue, show: PyValue -> string): Option<Meta> {
    match v
    case PyNone => Some(Nothing)
    case Bool(_) => Some(Number(AsInt(v)))
    case Int(n) => if InRange(n) then Some(Number(n)) else None
    case Float(x) => Some(Double(x))
    case Str(s) => Some(Text(s))
    case Table(m) => Some(TextMap(m))
    case Dict(entries) => Some(TextMap(TextEntries(entries, show)))
    case List(items) => StoredItems(items, show)
    case Series(items) => StoredItems(items, show)
    case Opaque(_) => Some(Text(show(v)))
  }

  /** The sequence branch with its pass over the items. */
  method StoreItems(items: seq<PyValue>, show: PyValue -> string) returns (m: Option<Meta>)
    ensures m == StoredItems(items, show)
  {
    if items == [] {
      return Some(Texts([]));
    }
    var allStr, allInt, allNumeric, i := true, true, true, 0;
    while i < |items|
      invariant i <= |items|
      invariant allStr <==> forall k :: 0 <= k < i ==> items[k].Str?
      invariant allInt <==> forall k :: 0 <= k < i ==> items[k].Int?
      invariant allNumeric <==> forall k :: 0 <= k < i ==> Numeric(items[k])
    {
      allStr := allStr && items[i].Str?;
      allInt := allInt && items[i].Int?;
      allNumeric := allNumeric && Numeric(items[i]);
      i := i + 1;
    }
    if allStr {
      m := Some(Texts(Map(items, StrOfAll(show))));
    } else if allInt {
      var out: seq<int> := [];
      var j := 0;
      while j < |items|
        invariant j == |out| <= |items|
        invariant forall k :: 0 <= k < j ==> out[k] == AsInt(items[k]) && InRange(out[k])
      {
        if !InRange(AsInt(items[j])) {
          assert items[j] in items;
          return None;
        }
        out := out + [AsInt(items[j])];
        j := j + 1;
      }
      assert out == Map(items, AsInt);
      m := Some(Numbers(out));
    } else if allNumeric {
      var out: seq<real> := [];
      var j := 0;
      while j < |items|
        invariant j == |out| <= |items|
        invariant forall k :: 0 <= k < j ==> out[k] == AsReal(items[k]) && FitsDouble(items[k])
      {
        if !FitsDouble(items[j]) {
          assert items[j] in items;
          return None;
        }
        out := out + [AsReal(items[j])];
        j := j + 1;
      }
      assert out == Map(items, AsReal);
      m := Some(Doubles(out));
    } else {
      m := Some(Texts(Map(items, StrOfAll(show))));
    }
  }

  // ---------------------------------------------------------------- and back

  function StrValue(): string -> PyValue {
    s => Str(s)
  }

  function IntValue(): int -> PyValue {
    n => Int(n)
  }

  function FloatValue(): real -> PyValue {
    x => Float(x)
  }

  /** `MetadataValueToPy`. */
  function Loaded(m: Meta): PyValue {
    match m
    case Nothing => PyNone
    case Text(s) => Str(s)
    case Texts(ss) => List(Map(ss, StrValue()))
    case Number(n) => Int(n)
    case Numbers(ns) => List(Map(ns, IntValue()))
    case Double(x) => Float(x)
    case Doubles(xs) => List(Map(xs, FloatValue()))
    case TextMap(t) => Table(t)
  }

  /** The C++ `int`s of a value. */
  predicate Representable(m: Meta) {
    (m.Number? ==> InRange(m.n)) && (m.Numbers? ==> forall n :: n in m.ns ==> InRange(n))
  }

  predicate AllFloat(items: seq<PyValue>) {
    forall v :: v in items ==> v.Float?
  }

  /** None, an int that fits, a float, a string, a dict of strings, or a list of only strings, only
      ints that fit, or only floats. */
  predicate Canonical(v: PyValue) {
    match v
    case PyNone => true
    case Int(n) => InRange(n)
    case Float(_) => true
    case Str(_) => true
    case Table(_) => true
    case List(items) =>
      AllStr(items) || AllFloat(items) || (AllInt(items) && forall i :: i in items ==> InRange(i.n))
    case _ => false
  }

  /** Storing fails exactly on an int that does not fit: in an `int`, alone or in a sequence of ints
      only, or in a `double`, in a sequence of numbers of several kinds. */
  lemma {:induction false} FailsExactly(v: PyValue, show: PyValue -> string)
    ensures Stored(v, show) == None <==>
      (v.Int? && !InRange(v.n))
      || ((v.List? || v.Series?) && AllInt(v.items) && exists i :: i in v.items && !InRange(i.n))
      || ((v.List? || v.Series?) && AllNumeric(v.items) && !AllInt(v.items) && exists i :: i in v.items && !FitsDouble(i))
  {
    hide FitsDouble, InRange;
    if v.List? || v.Series? {
      assert v.items == [] || v.items[0] in v.items;
    }
  }

  /** What is stored reads back as a canonical value and is stored as itself again, except that
      the empty vectors of numbers come back as the empty list and then as strings. */
  lemma {:induction false} LoadThenStore(m: Meta, show: PyValue -> string)
    requires Representable(m)
    ensures Canonical(Loaded(m))
    ensures Stored(Loaded(m), show) == Some(m) <==> m != Numbers([]) && m != Doubles([])
  {
    match m {
      case Texts(ss) =>
        var items := Map(ss, StrValue());
        assert forall v :: v in items ==> v.Str?;
        assert Map(items, StrOfAll(show)) == ss;
      case Numbers(ns) =>
        var items := Map(ns, IntValue());
        forall v | v in items ensures v.Int? && InRange(v.n) {
          var i :| 0 <= i < |items| && items[i] == v;
          assert ns[i] in ns;
        }
        assert Map(items, AsInt) == ns;
        if ns != [] {
          assert items[0] in items;
        }
      case Doubles(xs) =>
        var items := Map(xs, FloatValue());
        assert forall v :: v in items ==> v.Float?;
        assert Map(items, AsReal) == xs;
        if xs != [] {
          assert items[0] in items;
        }
      case _ =>
    }
  }

  lemma {:induction false} StoredIsRepresentable(v: PyValue, show: PyValue -> string)
    requires Stored(v, show).Some?
    ensures Representable(Stored(v, show).value)
    ensures Stored(v, show).value != Numbers([]) && Stored(v, show).value != Doubles([])
  {
    if v.List? || v.Series? {
      var items := v.items;
      if AllInt(items) && !AllStr(items) {
        forall n | n in Map(items, AsInt) ensures InRange(n) {
          var i :| 0 <= i < |items| && Map(items, AsInt)[i] == n;
          assert items[i] in items;
        }
      }
      assert items == [] ==> AllStr(items);
      assert |Map(items, AsInt)| == |Map(items, AsReal)| == |items|;
    }
  }

  /** There and back is the identity exactly on the canonical values. */
  lemma {:induction false} IdentityExactly(v: PyValue, show: PyValue -> string)
    ensures Stored(v, show).Some? && Loaded(Stored(v, show).value) == v <==> Canonical(v)
  {
    if Stored(v, show).Some? && Loaded(Stored(v, show).value) == v {
      StoredIsRepresentable(v, show);
      LoadThenStore(Stored(v, show).value, show);
    }
    if Canonical(v) && v.List? {
      ListIdentity(v.items, show);
    }
  }

  lemma {:induction false} ListIdentity(items: seq<PyValue>, show: PyValue -> string)
    requires Canonical(List(items))
    ensures StoredItems(items, show).Some? && Loaded(StoredItems(items, show).value) == List(items)
  {
    if AllStr(items) {
      assert Map(Map(items, StrOfAll(show)), StrValue()) == items by {
        assert forall i :: 0 <= i < |items| ==> items[i] in items;
      }
    } else {
      assert forall i :: 0 <= i < |items| ==> items[i] in items;
      assert items != [];
      assert AllInt(items) ==> Map(Map(items, AsInt), IntValue()) == items;
      assert AllFloat(items) ==> Map(Map(items, AsReal), FloatValue()) == items && !AllInt(items) && AllNumeric(items);
    }
  }

  /** What a value becomes: bools become ints, numbers of several kinds floats of the same value,
      any other mixture strings, and anything else its string. */
  lemma {:induction false} Becomes(v: PyValue, show: PyValue -> string)
    requires Stored(v, show).Some?
    ensures var w := Loaded(Stored(v, show).value);
      (v == Bool(true) ==> w == Int(1)) && (v == Bool(false) ==> w == Int(0))
      && (v.Opaque? ==> w == Str(show(v))) && (v.Dict? ==> w.Table?)
      && (v.List? || v.Series? ==> w.List? && |w.items| == |v.items|)
    ensures var w := Loaded(Stored(v, show).value);
      (v.List? || v.Series?) && AllNumeric(v.items) && !AllInt(v.items) && v.items != [] ==>
        forall i :: 0 <= i < |v.items| ==>
          w.items[i] == match v.items[i]
            case Int(n) => Float(n as real)
            case Bool(b) => Float(if b then 1.0 else 0.0)
            case x => x
    ensures var w := Loaded(Stored(v, show).value);
      (v.List? || v.Series?) && !AllNumeric(v.items) ==>
        forall i :: 0 <= i < |v.items| ==> w.items[i] == if v.items[i].Str? then v.items[i] else Str(show(v.items[i]))
  {
    if v.List? || v.Series? {
      var items := v.items;
      assert forall i :: 0 <= i < |items| ==> items[i] in items;
      if items != [] {
        assert items[0] in items;
      }
    }
  }

  /** A dict becomes a table with the strings of its keys; of keys with the same string the first
      one's value counts. */
  lemma {:induction false} FirstKeyWins(entries: seq<(PyValue, PyValue)>, show: PyValue -> string, i: nat)
    requires i < |entries|
    requires forall j :: 0 <= j < i ==> StrOf(entries[j].0, show) != StrOf(entries[i].0, show)
    ensures var k := StrOf(entries[i].0, show);
      k in TextEntries(entries, show) && TextEntries(entries, show)[k] == StrOf(entries[i].1, show)
  {
    var n := |entries| - 1;
    var before := entries[..n];
    if i < n {
      FirstKeyWins(before, show, i);
    } else {
      assert forall j :: 0 <= j < n ==> before[j] == entries[j];
      if StrOf(entries[i].0, show) in TextEntries(before, show) {
        var j := KeyHasEntry(before, show, StrOf(entries[i].0, show));
        assert false;
      }
    }
  }

  lemma {:induction false} KeyHasEntry(entries: seq<(PyValue, PyValue)>, show: PyValue -> string, k: string)
    returns (j: nat)
    requires k in TextEntries(entries, show)
    ensures j < |entries| && StrOf(entries[j].0, show) == k
  {
    j := |entries| - 1;
    if StrOf(entries[j].0, show) != k {
      j := KeyHasEntry(entries[..j], show, k);
    }
  }

  /** Normalising twice is normalising once. */
  lemma {:induction false} NormaliseTwice(v: PyValue, show: PyValue -> string)
    requires Stored(v, show).Some?
    ensures var once := Loaded(Stored(v, show).value);
      Stored(once, show) == Stored(v, show) && Loaded(Stored(once, show).value) == once
  {
    StoredIsRepresentable(v, show);
    LoadThenStore(Stored(v, show).value, show);
  }
}
