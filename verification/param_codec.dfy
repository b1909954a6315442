/**
 * The parameter codec shared by link building and request binding: pairing a
 * flat sequence into an associative array (`oneDimensionalToAssociativeArray`,
 * `stringParamsToAssociativeArray`), naming positional values after the
 * action's annotation (`combineParamsAnnotateConfig`), and the parameter
 * segments link building writes for URL types 1/5 and 3/4.
 */
module ParamCodec {
  import opened Wrappers
  import opened PhpString
  import opened PhpArray
  import opened PhpValue

  // ================================================================ pairing

  /**
   * The loop of `oneDimensionalToAssociativeArray` from iteration `i` on. Each
   * iteration reads keys `i` and `i + 1` of the array as it now stands and then
   * `array_shift`s it; `max` is the element count taken before the loop.
   */
  function PairLoop(a: Arr<string>, i: nat, max: nat, acc: Arr<string>): Arr<string>
    decreases max - i
  {
    if i >= max then acc
    else
      var key := Get(a, Int(i));
      var val := Get(a, Int(i + 1));
      var acc' := if key.Some? && val.Some? then Put(acc, NormKey(key.value), val.value) else acc;
      PairLoop(Shift(a), i + 1, max, acc')
  }

  /**
   * `oneDimensionalToAssociativeArray($p)`. With PHP 5/7 `count(null)` is 0 and
   * `count` of a string is 1, so a string of two or more characters pairs its
   * first two characters.
   */
  function OneDimensionalToAssociativeArray(p: Params): Arr<string> {
    match p
    case NoParams => []
    case ScalarParams(s) => if |s| >= 2 then [(NormKey([s[0]]), [s[1]])] else []
    case ArrayParams(a) => PairLoop(a, 0, |a|, [])
  }

  /** Reference pairing: `s[2i] => s[2i+1]` for each `i` with `2i + 1 < |s|`, in order, later pairs overwriting. */
  function PairFrom(s: seq<string>, i: nat, acc: Arr<string>): Arr<string>
    decreases |s| - i
  {
    if 2 * i + 1 >= |s| then acc
    else PairFrom(s, i + 1, Put(acc, NormKey(s[2 * i]), s[2 * i + 1]))
  }

  function Pair(s: seq<string>): Arr<string> {
    PairFrom(s, 0, [])
  }

  /** `[1, 2, 3, 4]` pairs into `{1: 2, 3: 4}`; with `[1, 2, 3]` the trailing 3 is dropped. */
  lemma PairExamples()
    ensures Pair(["1", "2", "3", "4"]) == [(Int(1), "2"), (Int(3), "4")]
    ensures Pair(["1", "2", "3"]) == [(Int(1), "2")]
  {
    assert NormKey("1") == Int(1) by {
      assert ParseNat("1") == 1 by { assert "1"[..0] == ""; }
    }
    assert NormKey("3") == Int(3) by {
      assert ParseNat("3") == 3 by { assert "3"[..0] == ""; }
    }
    var one: Arr<string> := [(Int(1), "2")];
    assert Put([], Int(1), "2") == one;
    assert Put(one, Int(3), "4") == one + [(Int(3), "4")];
    var s4, s3 := ["1", "2", "3", "4"], ["1", "2", "3"];
    assert PairFrom(s4, 0, []) == PairFrom(s4, 1, one);
    assert PairFrom(s4, 1, one) == PairFrom(s4, 2, one + [(Int(3), "4")]);
    assert PairFrom(s3, 0, []) == PairFrom(s3, 1, one);
  }

  /** Pairing never produces a duplicate key. */
  lemma {:induction false} PairFromUnique(s: seq<string>, i: nat, acc: Arr<string>)
    requires UniqueKeys(acc)
    ensures UniqueKeys(PairFrom(s, i, acc))
    decreases |s| - i
  {
    if 2 * i + 1 < |s| {
      var key := NormKey(s[2 * i]);
      var acc' := Put(acc, key, s[2 * i + 1]);
      PutUnique(acc, key, s[2 * i + 1]);
      PairFromUnique(s, i + 1, acc');
      assert PairFrom(s, i, acc) == PairFrom(s, i + 1, acc');
    }
  }

  /** The shifting loop pairs a list exactly as the reference pairing does. */
  lemma {:induction false} PairLoopList(s: seq<string>, i: nat, acc: Arr<string>)
    requires i <= |s|
    ensures PairLoop(ListOf(s[i..]), i, |s|, acc) == PairFrom(s, i, acc)
    decreases |s| - i
  {
    if i < |s| {
      var t := s[i..];
      GetList(t, i);
      GetList(t, i + 1);
      ShiftList(t);
      assert t[1..] == s[i + 1..];
      if 2 * i + 1 < |s| {
        assert t[i] == s[2 * i] && t[i + 1] == s[2 * i + 1];
      }
      PairLoopList(s, i + 1, if 2 * i + 1 < |s| then Put(acc, NormKey(s[2 * i]), s[2 * i + 1]) else acc);
    }
  }

  /** `oneDimensionalToAssociativeArray` of a list is the reference pairing of its elements. */
  lemma OneDimensionalOfList(s: seq<string>)
    ensures OneDimensionalToAssociativeArray(ArrayParams(ListOf(s))) == Pair(s)
  {
    assert s[0..] == s;
    PairLoopList(s, 0, []);
  }

  /** A key no remaining pair uses keeps the value it had before pairing. */
  lemma {:induction false} PairFromUntouched(s: seq<string>, i: nat, acc: Arr<string>, k: Key)
    requires forall j :: i <= j && 2 * j + 1 < |s| ==> NormKey(s[2 * j]) != k
    ensures Get(PairFrom(s, i, acc), k) == Get(acc, k)
    decreases |s| - i
  {
    if 2 * i + 1 < |s| {
      var key := NormKey(s[2 * i]);
      var acc' := Put(acc, key, s[2 * i + 1]);
      assert key != k;
      PutGetOther(acc, key, s[2 * i + 1], k);
      PairFromUntouched(s, i + 1, acc', k);
      assert PairFrom(s, i, acc) == PairFrom(s, i + 1, acc');
    }
  }

  /** The pair at `j` decides its key's value unless a later pair reuses the key. */
  lemma {:induction false} PairFromGet(s: seq<string>, i: nat, acc: Arr<string>, j: nat)
    requires i <= j && 2 * j + 1 < |s|
    requires forall j' :: j < j' && 2 * j' + 1 < |s| ==> NormKey(s[2 * j']) != NormKey(s[2 * j])
    ensures Get(PairFrom(s, i, acc), NormKey(s[2 * j])) == Some(s[2 * j + 1])
    decreases |s| - i
  {
    var key := NormKey(s[2 * i]);
    var acc' := Put(acc, key, s[2 * i + 1]);
    assert PairFrom(s, i, acc) == PairFrom(s, i + 1, acc');
    if i == j {
      PutGet(acc, key, s[2 * j + 1]);
      PairFromUntouched(s, i + 1, acc', key);
    } else {
      PairFromGet(s, i + 1, acc', j);
    }
  }

  /** The keys of a pairing are the keys of its pairs. */
  lemma {:induction false} PairFromKeys(s: seq<string>, i: nat, acc: Arr<string>)
    ensures KeysOf(PairFrom(s, i, acc)) ==
            KeysOf(acc) + set j | i <= j < |s| && 2 * j + 1 < |s| :: NormKey(s[2 * j])
    decreases |s| - i
  {
    if 2 * i + 1 < |s| {
      var acc' := Put(acc, NormKey(s[2 * i]), s[2 * i + 1]);
      PutKeys(acc, NormKey(s[2 * i]), s[2 * i + 1]);
      PairFromKeys(s, i + 1, acc');
      var later := set j | i + 1 <= j < |s| && 2 * j + 1 < |s| :: NormKey(s[2 * j]);
      var all := set j | i <= j < |s| && 2 * j + 1 < |s| :: NormKey(s[2 * j]);
      assert all == {NormKey(s[2 * i])} + later;
    }
  }

  /**
   * Pairing as the code promises it: exactly the keys `s[2i]` appear, and the
   * last pair with a given key supplies its value.
   */
  lemma PairSpec(s: seq<string>, j: nat)
    requires 2 * j + 1 < |s|
    requires forall j' :: j < j' && 2 * j' + 1 < |s| ==> NormKey(s[2 * j']) != NormKey(s[2 * j])
    ensures Get(Pair(s), NormKey(s[2 * j])) == Some(s[2 * j + 1])
    ensures KeysOf(Pair(s)) == set i | 0 <= i < |s| && 2 * i + 1 < |s| :: NormKey(s[2 * i])
  {
    PairFromGet(s, 0, [], j);
    PairFromKeys(s, 0, []);
    assert KeysOf<string>([]) == {};
  }

  /** `stringParamsToAssociativeArray($s, $sep)`: `explode` then pair; an empty separator yields nothing. */
  function StringParamsToAssociativeArray(s: string, sep: string): Arr<string> {
    match Explode(sep, s)
    case None => []
    case Some(parts) => OneDimensionalToAssociativeArray(ArrayParams(ListOf(parts)))
  }

  // ================================================================ segments

  /** The `$p_key . $dot . $p_val . $dot` loop of URL types 3 and 4. */
  function KeyedBody(a: Arr<string>, dot: string): string
    decreases |a|
  {
    if |a| == 0 then "" else KeyString(a[0].0) + dot + a[0].1 + dot + KeyedBody(a[1..], dot)
  }

  /** The parameter segment of URL types 3 and 4: the keyed body with trailing `dot` characters trimmed. */
  function KeyedSegment(a: Arr<string>, dot: string): string {
    RTrim(KeyedBody(a, dot), dot)
  }

  /** The parameter segment of URL types 1 and 5: the values joined with `dot`, keys dropped. */
  function PositionalSegment(a: Arr<string>, dot: string): string {
    Join(Values(a), dot)
  }

  /** Keys and values interleaved: `[k0, v0, k1, v1, ...]`. */
  function Flatten(a: Arr<string>): (r: seq<string>)
    ensures |r| == 2 * |a|
    ensures forall i :: 0 <= i < |a| ==> r[2 * i] == KeyString(a[i].0) && r[2 * i + 1] == a[i].1
    decreases |a|
  {
    if |a| == 0 then []
    else
      var rest := Flatten(a[1..]);
      assert forall i :: 1 <= i < |a| ==> a[1..][i - 1] == a[i];
      [KeyString(a[0].0), a[0].1] + rest
  }

  lemma JoinCons(x: string, y: string, rest: seq<string>, sep: string)
    requires |rest| >= 1
    ensures Join([x, y] + rest, sep) == x + sep + y + sep + Join(rest, sep)
  {
    assert ([x, y] + rest)[1..] == [y] + rest;
    assert ([y] + rest)[1..] == rest;
  }

  /** For a non-empty array the keyed body is the flattened entries joined with `dot`, plus a final `dot`. */
  lemma {:induction false} KeyedBodyJoin(a: Arr<string>, dot: string)
    requires |a| >= 1
    ensures KeyedBody(a, dot) == Join(Flatten(a), dot) + dot
    decreases |a|
  {
    var k, v := KeyString(a[0].0), a[0].1;
    if |a| == 1 {
      assert Flatten(a) == [k, v];
      assert Join([k, v], dot) == k + dot + v;
    } else {
      KeyedBodyJoin(a[1..], dot);
      JoinCons(k, v, Flatten(a[1..]), dot);
    }
  }

  /** A join whose last part is non-empty ends with that part's last character. */
  lemma {:induction false} JoinLast(parts: seq<string>, sep: string)
    requires |parts| >= 1 && parts[|parts| - 1] != ""
    ensures var j := Join(parts, sep); var l := parts[|parts| - 1];
            j != "" && j[|j| - 1] == l[|l| - 1]
    decreases |parts|
  {
    if |parts| > 1 {
      JoinLast(parts[1..], sep);
    }
  }

  /** A flattened array whose keys and values avoid `dot` has no part containing `dot`. */
  lemma FlattenFreeOf(a: Arr<string>, dot: string)
    requires forall i :: 0 <= i < |a| ==> FreeOf(KeyString(a[i].0), dot) && FreeOf(a[i].1, dot)
    ensures forall i :: 0 <= i < |Flatten(a)| ==> FreeOf(Flatten(a)[i], dot)
  {
    var f := Flatten(a);
    forall i | 0 <= i < |f| ensures FreeOf(f[i], dot) {
      var h := i / 2;
      if i % 2 == 0 {
        assert i == 2 * h;
        assert f[i] == KeyString(a[h].0);
      } else {
        assert i == 2 * h + 1;
        assert f[i] == a[h].1;
      }
    }
  }

  /** What a map must satisfy for the type 3/4 segment to be read back. */
  predicate KeyedSerializable(a: Arr<string>, dot: string) {
    && |dot| > 0 && Ascii(dot)
    && UniqueKeys(a)
    && (forall i :: 0 <= i < |a| ==> NormalKey(a[i].0) && FreeOf(KeyString(a[i].0), dot) && FreeOf(a[i].1, dot))
    && (|a| > 0 ==> a[|a| - 1].1 != "")
  }

  /** Pairing a flattened array with unique, PHP-normal keys rebuilds the array. */
  lemma {:induction false} PairFlatten(a: Arr<string>, i: nat)
    requires i <= |a| && UniqueKeys(a)
    requires forall j :: 0 <= j < |a| ==> NormalKey(a[j].0)
    ensures PairFrom(Flatten(a), i, a[..i]) == a
    decreases |a| - i
  {
    var s := Flatten(a);
    if i < |a| {
      NormKeyString(a[i].0);
      assert NormKey(s[2 * i]) == a[i].0 && s[2 * i + 1] == a[i].1;
      PrefixKeyFresh(a, i);
      PutNew(a[..i], a[i].0, a[i].1);
      assert Put(a[..i], a[i].0, a[i].1) == a[..i + 1] by {
        assert a[..i] + [(a[i].0, a[i].1)] == a[..i + 1];
      }
      assert PairFrom(s, i, a[..i]) == PairFrom(s, i + 1, a[..i + 1]);
      PairFlatten(a, i + 1);
    } else {
      assert a[..i] == a;
    }
  }

  lemma PrefixKeyFresh<V>(a: Arr<V>, i: nat)
    requires i < |a| && UniqueKeys(a)
    ensures a[i].0 !in KeysOf(a[..i])
  {
    forall j | 0 <= j < i ensures a[..i][j].0 != a[i].0 {
      assert a[..i][j] == a[j];
    }
  }

  /**
   * Round trip of URL types 3/4: reading the segment link building writes
   * (`stringParamsToAssociativeArray`) gives back the original parameters,
   * when `dot` is non-empty and ASCII (`rtrim` strips bytes, so a multibyte
   * `dot` could cut into the last value's bytes), keys are distinct, no key
   * or value contains a character of `dot`, and the last value is non-empty
   * (`rtrim` would eat an empty one).
   */
  lemma KeyedRoundTrip(a: Arr<string>, dot: string)
    requires KeyedSerializable(a, dot)
    ensures StringParamsToAssociativeArray(KeyedSegment(a, dot), dot) == a
  {
    var f := Flatten(a);
    if |a| == 0 {
      assert KeyedSegment(a, dot) == "";
      assert Split(dot, "") == [""];
      OneDimensionalOfList([""]);
    } else {
      KeyedBodyJoin(a, dot);
      JoinLast(f, dot);
      assert f[|f| - 1] == a[|a| - 1].1;
      RTrimSuffix(Join(f, dot), dot, dot);
      FlattenFreeOf(a, dot);
      SplitJoin(f, dot);
      OneDimensionalOfList(f);
      PairFlatten(a, 0);
      assert a[..0] == [];
    }
  }

  /** Round trip of URL types 1/5: splitting the segment on `dot` gives back the values. */
  lemma PositionalRoundTrip(a: Arr<string>, dot: string)
    requires |dot| > 0 && |a| >= 1
    requires forall i :: 0 <= i < |a| ==> FreeOf(a[i].1, dot)
    ensures Explode(dot, PositionalSegment(a, dot)) == Some(Values(a))
  {
    SplitJoin(Values(a), dot);
  }

  // ================================================================ annotation names

  /** The `foreach` of `combineParamsAnnotateConfig`: entry `k` is named `names[k]` when that exists, else appended. */
  function BindNames(a: Arr<string>, names: seq<string>, acc: Arr<string>): Arr<string>
    decreases |a|
  {
    if |a| == 0 then acc
    else
      var k := a[0].0;
      var acc' := if k.Int? && 0 <= k.n < |names| then Put(acc, NormKey(names[k.n]), a[0].1) else Push(acc, a[0].1);
      BindNames(a[1..], names, acc')
  }

  /**
   * `combineParamsAnnotateConfig($params, $names)`: without names, or with
   * empty params, the params come back unchanged; a non-empty scalar cannot
   * be iterated and yields an empty array.
   */
  function CombineParamsAnnotateConfig(p: Params, names: seq<string>): (r: Params)
    ensures names == [] || EmptyParams(p) ==> r == p
    ensures r == p || r.ArrayParams?
    ensures !(names == [] || EmptyParams(p)) ==> r.ArrayParams?
    ensures p.ScalarParams? && !(names == [] || EmptyParams(p)) ==> r == ArrayParams([])
  {
    if names == [] || EmptyParams(p) then p
    else match p
      case ArrayParams(a) => ArrayParams(BindNames(a, names, []))
      case ScalarParams(_) => ArrayParams([])
      case NoParams => p
  }

  /** An entry whose integer key is a position in `names`: `isset($names[$k])`. */
  predicate Named(e: (Key, string), names: seq<string>) {
    e.0.Int? && 0 <= e.0.n < |names|
  }

  /** The values of the entries that take no name, in order. */
  function Unnamed(a: Arr<string>, names: seq<string>): seq<string>
    decreases |a|
  {
    if |a| == 0 then [] else (if Named(a[0], names) then [] else [a[0].1]) + Unnamed(a[1..], names)
  }

  /**
   * Reference binding of an array: each entry keeps its place and value; a
   * named entry takes the key `names[k]`, and the others take the integer
   * keys `j`, `j + 1`, ... in order.
   */
  function BindRef(a: Arr<string>, names: seq<string>, j: nat): (r: Arr<string>)
    ensures |r| == |a|
    decreases |a|
  {
    if |a| == 0 then []
    else if Named(a[0], names) then [(Str(names[a[0].0.n]), a[0].1)] + BindRef(a[1..], names, j)
    else [(Int(j), a[0].1)] + BindRef(a[1..], names, j + 1)
  }

  /**
   * Entry `i` of the reference binding keeps its value; a named entry takes
   * its name, any other an integer key from `j` on.
   */
  lemma {:induction false} BindRefAt(a: Arr<string>, names: seq<string>, j: nat, i: nat)
    requires i < |a|
    ensures BindRef(a, names, j)[i].1 == a[i].1
    ensures Named(a[i], names) ==> BindRef(a, names, j)[i].0 == Str(names[a[i].0.n])
    ensures !Named(a[i], names) ==> BindRef(a, names, j)[i].0.Int? && BindRef(a, names, j)[i].0.n >= j
    decreases i
  {
    if i > 0 {
      var j' := if Named(a[0], names) then j else j + 1;
      BindRefAt(a[1..], names, j', i - 1);
      assert BindRef(a, names, j)[i] == BindRef(a[1..], names, j')[i - 1];
      assert a[1..][i - 1] == a[i];
    }
  }

  /** No name an entry of `a` will take is already a key of `acc`. */
  predicate NamesFresh(acc: Arr<string>, a: Arr<string>, names: seq<string>) {
    forall i, j :: 0 <= i < |acc| && 0 <= j < |a| && Named(a[j], names) ==> acc[i].0 != Str(names[a[j].0.n])
  }

  /**
   * The `foreach` of `combineParamsAnnotateConfig` builds the reference
   * binding after what it has built so far, as long as no name still to come
   * is already a key.
   */
  lemma {:induction false} BindNamesRef(a: Arr<string>, names: seq<string>, acc: Arr<string>)
    requires DistinctNames(names) && UniqueKeys(a) && NamesFresh(acc, a, names)
    ensures BindNames(a, names, acc) == acc + BindRef(a, names, NextIndex(acc))
    decreases |a|
  {
    var n := NextIndex(acc);
    if |a| > 0 {
      TailUnique(a);
      if Named(a[0], names) {
        assert BindNames(a, names, acc) == acc + BindRef(a, names, n) by {
          var acc' := acc + [(Str(names[a[0].0.n]), a[0].1)];
          NamedStep(a, names, acc);
          NextIndexSnocStr(acc, names[a[0].0.n], a[0].1);
          BindNamesRef(a[1..], names, acc');
          NamedJoin(a, names, acc, n);
        }
      } else {
        assert BindNames(a, names, acc) == acc + BindRef(a, names, n) by {
          var acc' := acc + [(Int(n), a[0].1)];
          UnnamedStep(a, names, acc, n);
          NextIndexSnocInt(acc, a[0].1);
          BindNamesRef(a[1..], names, acc');
          UnnamedJoin(a, names, acc, n);
        }
      }
    } else {
      assert acc + BindRef(a, names, n) == acc;
    }
  }

  lemma NamedJoin(a: Arr<string>, names: seq<string>, acc: Arr<string>, n: nat)
    requires |a| > 0 && Named(a[0], names)
    requires var acc' := acc + [(Str(names[a[0].0.n]), a[0].1)];
             && BindNames(a, names, acc) == BindNames(a[1..], names, acc')
             && BindNames(a[1..], names, acc') == acc' + BindRef(a[1..], names, NextIndex(acc'))
             && NextIndex(acc') == n
    ensures BindNames(a, names, acc) == acc + BindRef(a, names, n)
  {
    BindRefCons(a, names, n);
    EntriesAssoc(acc, [(Str(names[a[0].0.n]), a[0].1)], BindRef(a[1..], names, n));
  }

  lemma UnnamedJoin(a: Arr<string>, names: seq<string>, acc: Arr<string>, n: nat)
    requires |a| > 0 && !Named(a[0], names)
    requires var acc' := acc + [(Int(n), a[0].1)];
             && BindNames(a, names, acc) == BindNames(a[1..], names, acc')
             && BindNames(a[1..], names, acc') == acc' + BindRef(a[1..], names, NextIndex(acc'))
             && NextIndex(acc') == n + 1
    ensures BindNames(a, names, acc) == acc + BindRef(a, names, n)
  {
    BindRefCons(a, names, n);
    EntriesAssoc(acc, [(Int(n), a[0].1)], BindRef(a[1..], names, n + 1));
  }

  lemma BindRefCons(a: Arr<string>, names: seq<string>, j: nat)
    requires |a| > 0
    ensures Named(a[0], names) ==> BindRef(a, names, j) == [(Str(names[a[0].0.n]), a[0].1)] + BindRef(a[1..], names, j)
    ensures !Named(a[0], names) ==> BindRef(a, names, j) == [(Int(j), a[0].1)] + BindRef(a[1..], names, j + 1)
  {
  }

  lemma EntriesAssoc(x: Arr<string>, y: Arr<string>, z: Arr<string>)
    ensures (x + y) + z == x + (y + z)
  {
  }

  lemma TailUnique<V>(a: Arr<V>)
    requires UniqueKeys(a) && |a| > 0
    ensures UniqueKeys(a[1..])
  {
    var t := a[1..];
    forall i, j | 0 <= i < j < |t| ensures t[i].0 != t[j].0 {
      assert t[i] == a[i + 1] && t[j] == a[j + 1];
    }
  }

  /** A named entry: its name is new, and stays fresh for the entries after it. */
  lemma NamedStep(a: Arr<string>, names: seq<string>, acc: Arr<string>)
    requires DistinctNames(names) && UniqueKeys(a) && |a| > 0 && Named(a[0], names) && NamesFresh(acc, a, names)
    ensures BindNames(a, names, acc) == BindNames(a[1..], names, acc + [(Str(names[a[0].0.n]), a[0].1)])
    ensures NamesFresh(acc + [(Str(names[a[0].0.n]), a[0].1)], a[1..], names)
  {
    var key := Str(names[a[0].0.n]);
    assert NormKey(names[a[0].0.n]) == key;
    assert key !in KeysOf(acc) by {
      forall i | 0 <= i < |acc| ensures acc[i].0 != key {
        assert Named(a[0], names);
      }
    }
    PutNew(acc, key, a[0].1);
    var acc' := acc + [(key, a[0].1)];
    var t := a[1..];
    forall i, j | 0 <= i < |acc'| && 0 <= j < |t| && Named(t[j], names) ensures acc'[i].0 != Str(names[t[j].0.n]) {
      assert t[j] == a[j + 1];
      if i == |acc| {
        assert a[0].0 != a[j + 1].0;
      } else {
        assert acc'[i] == acc[i];
      }
    }
  }

  /** An unnamed entry is pushed under the next integer key, which no name can clash with. */
  lemma UnnamedStep(a: Arr<string>, names: seq<string>, acc: Arr<string>, n: nat)
    requires |a| > 0 && !Named(a[0], names) && NamesFresh(acc, a, names) && n == NextIndex(acc)
    ensures BindNames(a, names, acc) == BindNames(a[1..], names, acc + [(Int(n), a[0].1)])
    ensures NamesFresh(acc + [(Int(n), a[0].1)], a[1..], names)
  {
    var acc' := acc + [(Int(n), a[0].1)];
    var t := a[1..];
    forall i, j | 0 <= i < |acc'| && 0 <= j < |t| && Named(t[j], names) ensures acc'[i].0 != Str(names[t[j].0.n]) {
      assert t[j] == a[j + 1];
      if i < |acc| {
        assert acc'[i] == acc[i];
      }
    }
  }

  /** With unique entry keys and distinct names, the reference binding repeats no key. */
  lemma {:induction false} BindRefUnique(a: Arr<string>, names: seq<string>, j: nat)
    requires DistinctNames(names) && UniqueKeys(a)
    ensures UniqueKeys(BindRef(a, names, j))
    decreases |a|
  {
    if |a| > 0 {
      var t := a[1..];
      forall i, k | 0 <= i < k < |t| ensures t[i].0 != t[k].0 {
        assert t[i] == a[i + 1] && t[k] == a[k + 1];
      }
      var j' := if Named(a[0], names) then j else j + 1;
      BindRefUnique(t, names, j');
      var r := BindRef(a, names, j);
      assert r[1..] == BindRef(t, names, j');
      forall i, k | 0 <= i < k < |r| ensures r[i].0 != r[k].0 {
        if i == 0 {
          assert r[k] == BindRef(t, names, j')[k - 1] && t[k - 1] == a[k];
          assert a[0].0 != a[k].0;
          BindRefAt(a, names, j, 0);
          BindRefAt(t, names, j', k - 1);
        } else {
          assert r[i] == BindRef(t, names, j')[i - 1] && r[k] == BindRef(t, names, j')[k - 1];
        }
      }
    }
  }

  /** The integer-keyed values of the reference binding are the unnamed values. */
  lemma {:induction false} BindRefIntValues(a: Arr<string>, names: seq<string>, j: nat)
    ensures IntValues(BindRef(a, names, j)) == Unnamed(a, names)
    decreases |a|
  {
    if |a| > 0 {
      var j' := if Named(a[0], names) then j else j + 1;
      var r := BindRef(a, names, j);
      assert r[1..] == BindRef(a[1..], names, j');
      IntValuesCons(r);
      BindRefIntValues(a[1..], names, j');
    }
  }

  /**
   * Binding any array with distinct keys: every entry keyed by a position in
   * `names` is found under that name, nothing is lost, and the integer-keyed
   * values are those of the other entries, in order (string keys of the input
   * are dropped).
   */
  lemma CombineArray(a: Arr<string>, names: seq<string>)
    requires DistinctNames(names) && UniqueKeys(a) && names != [] && a != []
    ensures var r := CombineParamsAnnotateConfig(ArrayParams(a), names);
            && r.ArrayParams?
            && |r.a| == |a|
            && (forall i :: 0 <= i < |a| && Named(a[i], names) ==> Get(r.a, NormKey(names[a[i].0.n])) == Some(a[i].1))
            && IntValues(r.a) == Unnamed(a, names)
  {
    CombineIsBindRef(a, names);
    var r := BindRef(a, names, 0);
    BindRefUnique(a, names, 0);
    BindRefIntValues(a, names, 0);
    forall i | 0 <= i < |a| && Named(a[i], names) ensures Get(r, NormKey(names[a[i].0.n])) == Some(a[i].1) {
      assert NormKey(names[a[i].0.n]) == Str(names[a[i].0.n]);
      BindRefAt(a, names, 0, i);
      GetAt(r, i);
    }
  }

  /** With distinct names and keys, binding an array is the reference binding numbered from 0. */
  lemma CombineIsBindRef(a: Arr<string>, names: seq<string>)
    requires DistinctNames(names) && UniqueKeys(a) && names != [] && a != []
    ensures CombineParamsAnnotateConfig(ArrayParams(a), names) == ArrayParams(BindRef(a, names, 0))
  {
    BindNamesRef(a, names, []);
    assert NextIndex<string>([]) == 0;
    assert [] + BindRef(a, names, 0) == BindRef(a, names, 0);
  }

  /** Names that PHP keeps as string keys and that are pairwise distinct. */
  predicate DistinctNames(names: seq<string>) {
    && (forall i :: 0 <= i < |names| ==> !IsIntKeyString(names[i]))
    && (forall i, j :: 0 <= i < j < |names| ==> names[i] != names[j])
  }

  /** `names[i] => values[i]` for each position. */
  function Zip(names: seq<string>, values: seq<string>): (r: Arr<string>)
    requires |names| == |values|
    ensures |r| == |values|
    ensures forall i :: 0 <= i < |values| ==> r[i] == (Str(names[i]), values[i])
  {
    seq(|values|, i requires 0 <= i < |values| => (Str(names[i]), values[i]))
  }

  /** The names bound so far, then the values left over, keyed 0, 1, 2, ... */
  function Bound(names: seq<string>, values: seq<string>, i: nat): Arr<string>
    requires i <= |values|
  {
    var m := if |names| < i then |names| else i;
    Zip(names[..m], values[..m]) + ListOf(values[m..i])
  }

  lemma BindStepNamed(names: seq<string>, values: seq<string>, i: nat)
    requires DistinctNames(names) && i < |names| && i < |values|
    ensures Put(Bound(names, values, i), NormKey(names[i]), values[i]) == Bound(names, values, i + 1)
  {
    var acc := Bound(names, values, i);
    assert acc == Zip(names[..i], values[..i]);
    assert Str(names[i]) !in KeysOf(acc);
    PutNew(acc, Str(names[i]), values[i]);
    assert Zip(names[..i], values[..i]) + [(Str(names[i]), values[i])] == Zip(names[..i + 1], values[..i + 1]);
  }

  lemma BindStepAppended(names: seq<string>, values: seq<string>, i: nat)
    requires |names| <= i < |values|
    ensures Push(Bound(names, values, i), values[i]) == Bound(names, values, i + 1)
  {
    var m := |names|;
    var z := Zip(names[..m], values[..m]);
    NextIndexStrThenList(z, values[m..i]);
    assert ListOf(values[m..i]) + [(Int(i - m), values[i])] == ListOf(values[m..i + 1]);
  }

  lemma {:induction false} BindNamesList(names: seq<string>, values: seq<string>, i: nat)
    requires DistinctNames(names) && i <= |values|
    ensures BindNames(ListOf(values)[i..], names, Bound(names, values, i)) == Bound(names, values, |values|)
    decreases |values| - i
  {
    if i < |values| {
      var a := ListOf(values)[i..];
      assert a[0] == (Int(i), values[i]);
      assert a[1..] == ListOf(values)[i + 1..];
      if i < |names| {
        BindStepNamed(names, values, i);
      } else {
        BindStepAppended(names, values, i);
      }
      BindNamesList(names, values, i + 1);
    }
  }

  /** The names bound, then the leftover list: no key occurs twice. */
  lemma ZipThenListUnique(names: seq<string>, values: seq<string>, rest: seq<string>)
    requires DistinctNames(names) && |names| == |values|
    ensures UniqueKeys(Zip(names, values) + ListOf(rest))
  {
    var z := Zip(names, values);
    var a := z + ListOf(rest);
    forall i, j | 0 <= i < j < |a| ensures a[i].0 != a[j].0 {
      if j < |z| {
        assert a[i].0 == Str(names[i]) && a[j].0 == Str(names[j]);
      } else if i >= |z| {
        assert a[i].0 == Int(i - |z|) && a[j].0 == Int(j - |z|);
      } else {
        assert a[i].0.Str? && a[j].0.Int?;
      }
    }
  }

  /** The first `m` values under their names, then the rest as a list: keys unique, names find their values, the list part is the rest. */
  lemma ZipThenListFacts(names: seq<string>, values: seq<string>, m: nat)
    requires DistinctNames(names) && m <= |names| && m <= |values|
    ensures var b := Zip(names[..m], values[..m]) + ListOf(values[m..]);
            && UniqueKeys(b)
            && IntValues(b) == values[m..]
            && (forall i :: 0 <= i < m ==> Get(b, Str(names[i])) == Some(values[i]))
  {
    var z := Zip(names[..m], values[..m]);
    var b := z + ListOf(values[m..]);
    assert DistinctNames(names[..m]);
    ZipThenListUnique(names[..m], values[..m], values[m..]);
    IntValuesStrThenList(z, values[m..]);
    forall i | 0 <= i < m ensures Get(b, Str(names[i])) == Some(values[i]) {
      assert b[i] == (Str(names[i]), values[i]);
      GetAt(b, i);
    }
  }

  /**
   * Binding a list of values to distinct annotation names: the first values
   * take the names in order, and values beyond the names are appended with
   * keys 0, 1, 2, ...
   */
  lemma CombineList(values: seq<string>, names: seq<string>)
    requires DistinctNames(names) && |names| >= 1 && |values| >= 1
    ensures var m := if |names| < |values| then |names| else |values|;
            CombineParamsAnnotateConfig(ArrayParams(ListOf(values)), names)
              == ArrayParams(Zip(names[..m], values[..m]) + ListOf(values[m..]))
  {
    BindNamesList(names, values, 0);
    assert ListOf(values)[0..] == ListOf(values);
    assert Bound(names, values, 0) == [];
  }
}
