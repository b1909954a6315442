/**
 * PHP ordered arrays: a sequence of key/value entries in insertion order.
 * Keys are integers or strings; a string that spells a canonical decimal
 * integer inside the 64-bit range is turned into an integer key, as PHP does.
 */
module PhpArray {
  import opened Wrappers

  datatype Key = Int(n: int) | Str(s: string)

  /** A PHP array; the operations below keep its keys unique. */
  type Arr<V> = seq<(Key, V)>

  const IntMin: int := -0x8000_0000_0000_0000
  const IntMax: int := 0x7FFF_FFFF_FFFF_FFFF

  // ---------------------------------------------------------------- decimals

  predicate IsDigit(c: char) {
    '0' <= c <= '9'
  }

  predicate AllDigits(s: string) {
    forall i :: 0 <= i < |s| ==> IsDigit(s[i])
  }

  function DigitChar(d: nat): (c: char)
    requires d < 10
    ensures IsDigit(c) && c as int - '0' as int == d
  {
    ('0' as int + d) as char
  }

  /** The decimal spelling of a natural number, without leading zeros. */
  function NatToString(n: nat): (r: string)
    ensures |r| >= 1 && AllDigits(r)
    ensures r[0] == '0' <==> n == 0
    ensures n == 0 ==> r == "0"
  {
    if n < 10 then [DigitChar(n)] else NatToString(n / 10) + [DigitChar(n % 10)]
  }

  function ParseNat(s: string): nat
    requires AllDigits(s)
  {
    if s == "" then 0
    else
      assert IsDigit(s[|s| - 1]);
      ParseNat(s[..|s| - 1]) * 10 + (s[|s| - 1] as int - '0' as int)
  }

  lemma {:induction false} ParseNatToString(n: nat)
    ensures ParseNat(NatToString(n)) == n
  {
    if n >= 10 {
      var s := NatToString(n);
      assert s[..|s| - 1] == NatToString(n / 10);
      ParseNatToString(n / 10);
    }
  }

  /** PHP's string form of an integer (what `.` concatenation and array keys print). */
  function IntToString(n: int): string {
    if n < 0 then "-" + NatToString(-n) else NatToString(n)
  }

  /** A string PHP reads back as an integer array key: "0", or an optional '-' and digits without a leading zero. */
  predicate IsCanonicalDecimal(s: string) {
    || s == "0"
    || (|s| >= 1 && '1' <= s[0] <= '9' && AllDigits(s))
    || (|s| >= 2 && s[0] == '-' && '1' <= s[1] <= '9' && AllDigits(s[1..]))
  }

  function ParseInt(s: string): int
    requires IsCanonicalDecimal(s)
  {
    if s[0] == '-' then -(ParseNat(s[1..]) as int) else ParseNat(s)
  }

  /** A string PHP turns into an integer key: canonical decimal text inside the 64-bit range. */
  predicate IsIntKeyString(s: string) {
    IsCanonicalDecimal(s) && IntMin <= ParseInt(s) <= IntMax
  }

  /** The key PHP stores when a string is used as an array key. */
  function NormKey(s: string): (k: Key)
    ensures k.Str? ==> k.s == s
  {
    if IsIntKeyString(s) then Int(ParseInt(s)) else Str(s)
  }

  /** The text a key prints as when it is concatenated into a string. */
  function KeyString(k: Key): string {
    match k
    case Int(n) => IntToString(n)
    case Str(s) => s
  }

  /** A key PHP can actually hold: a 64-bit integer, or a string that does not spell one. */
  predicate NormalKey(k: Key) {
    match k
    case Int(n) => IntMin <= n <= IntMax
    case Str(s) => !IsIntKeyString(s)
  }

  /** Printing a key and using the text as a key again gives the same key. */
  lemma NormKeyString(k: Key)
    requires NormalKey(k)
    ensures NormKey(KeyString(k)) == k
  {
    if k.Int? {
      IntToStringParses(k.n);
    }
  }

  /** The string form of an integer is canonical decimal text that parses back to it. */
  lemma IntToStringParses(n: int)
    ensures IsCanonicalDecimal(IntToString(n)) && ParseInt(IntToString(n)) == n
  {
    if n < 0 {
      NegativeParses(-n);
    } else {
      ParseNatToString(n);
    }
  }

  lemma NegativeParses(m: nat)
    requires m > 0
    ensures var s := "-" + NatToString(m); IsCanonicalDecimal(s) && ParseInt(s) == -(m as int)
  {
    var s := "-" + NatToString(m);
    assert s[1..] == NatToString(m);
    ParseNatToString(m);
  }

  // ---------------------------------------------------------------- lookup

  function KeysOf<V>(a: Arr<V>): set<Key> {
    set i | 0 <= i < |a| :: a[i].0
  }

  lemma KeysOfCons<V>(a: Arr<V>)
    requires |a| > 0
    ensures KeysOf(a) == {a[0].0} + KeysOf(a[1..])
  {
    forall x | x in KeysOf(a) && x != a[0].0 ensures x in KeysOf(a[1..]) {
      var j :| 0 <= j < |a| && a[j].0 == x;
      assert a[1..][j - 1] == a[j];
    }
  }

  /** `isset($a[$k]) ? $a[$k] : null` for non-null values: the value under the first entry with key `k`. */
  function Get<V>(a: Arr<V>, k: Key): Option<V>
    decreases |a|
  {
    if |a| == 0 then None
    else if a[0].0 == k then Some(a[0].1)
    else Get(a[1..], k)
  }

  predicate UniqueKeys<V>(a: Arr<V>) {
    forall i, j :: 0 <= i < j < |a| ==> a[i].0 != a[j].0
  }

  /** A lookup finds something exactly when the key is present. */
  lemma {:induction false} GetSome<V>(a: Arr<V>, k: Key)
    ensures Get(a, k).Some? <==> k in KeysOf(a)
    decreases |a|
  {
    if |a| > 0 {
      KeysOfCons(a);
      GetSome(a[1..], k);
    }
  }

  /** In an array with unique keys the entry at position `i` is what `Get` finds for its key. */
  lemma {:induction false} GetAt<V>(a: Arr<V>, i: nat)
    requires UniqueKeys(a) && i < |a|
    ensures Get(a, a[i].0) == Some(a[i].1)
    decreases i
  {
    if i > 0 {
      assert a[0].0 != a[i].0;
      assert a[1..][i - 1] == a[i];
      GetAt(a[1..], i - 1);
    }
  }

  // ---------------------------------------------------------------- update

  /** `$a[$k] = $v`: overwrite the entry in place when the key exists, append otherwise. */
  function Put<V>(a: Arr<V>, k: Key, v: V): Arr<V>
    decreases |a|
  {
    if |a| == 0 then [(k, v)]
    else if a[0].0 == k then [(k, v)] + a[1..]
    else [a[0]] + Put(a[1..], k, v)
  }

  /** After writing a key, reading it gives the value written. */
  lemma {:induction false} PutGet<V>(a: Arr<V>, k: Key, v: V)
    ensures Get(Put(a, k, v), k) == Some(v)
    decreases |a|
  {
    if |a| > 0 && a[0].0 != k {
      PutGet(a[1..], k, v);
      assert Put(a, k, v)[1..] == Put(a[1..], k, v);
    }
  }

  /** Writing one key leaves every other key's value as it was. */
  lemma {:induction false} PutGetOther<V>(a: Arr<V>, k: Key, v: V, k': Key)
    requires k' != k
    ensures Get(Put(a, k, v), k') == Get(a, k')
    decreases |a|
  {
    var r := Put(a, k, v);
    if |a| == 0 {
      assert r[1..] == [];
    } else if a[0].0 == k {
      assert r[1..] == a[1..];
    } else if a[0].0 != k' {
      PutGetOther(a[1..], k, v, k');
      assert r[1..] == Put(a[1..], k, v);
    }
  }

  /** Writing a key that is already present replaces the entry at its first position. */
  lemma {:induction false} PutExisting<V>(a: Arr<V>, k: Key, v: V)
    requires k in KeysOf(a)
    ensures exists i :: 0 <= i < |a| && a[i].0 == k && Put(a, k, v) == a[i := (k, v)]
    decreases |a|
  {
    KeysOfCons(a);
    if a[0].0 == k {
      assert Put(a, k, v) == a[0 := (k, v)];
    } else {
      PutExisting(a[1..], k, v);
      var i :| 0 <= i < |a[1..]| && a[1..][i].0 == k && Put(a[1..], k, v) == a[1..][i := (k, v)];
      assert Put(a, k, v) == a[i + 1 := (k, v)];
    }
  }

  /** Writing a new key appends it. */
  lemma {:induction false} PutNew<V>(a: Arr<V>, k: Key, v: V)
    requires k !in KeysOf(a)
    ensures Put(a, k, v) == a + [(k, v)]
    decreases |a|
  {
    if |a| > 0 {
      KeysOfCons(a);
      PutNew(a[1..], k, v);
      assert a == [a[0]] + a[1..];
    }
  }

  /** Writing a key adds exactly that key to the key set. */
  lemma PutKeys<V>(a: Arr<V>, k: Key, v: V)
    ensures KeysOf(Put(a, k, v)) == KeysOf(a) + {k}
  {
    var r := Put(a, k, v);
    if k in KeysOf(a) {
      PutExisting(a, k, v);
      var i :| 0 <= i < |a| && a[i].0 == k && r == a[i := (k, v)];
      forall x | x in KeysOf(a) ensures x in KeysOf(r) {
        var j :| 0 <= j < |a| && a[j].0 == x;
        assert r[j].0 == x;
      }
    } else {
      PutNew(a, k, v);
      forall x | x in KeysOf(a) ensures x in KeysOf(r) {
        var j :| 0 <= j < |a| && a[j].0 == x;
        assert r[j].0 == x;
      }
      assert r[|a|].0 == k;
    }
  }

  /** Writing a key never duplicates one. */
  lemma PutUnique<V>(a: Arr<V>, k: Key, v: V)
    requires UniqueKeys(a)
    ensures UniqueKeys(Put(a, k, v))
  {
    var r := Put(a, k, v);
    if k in KeysOf(a) {
      PutExisting(a, k, v);
      var i :| 0 <= i < |a| && a[i].0 == k && r == a[i := (k, v)];
      assert forall j :: 0 <= j < |a| ==> r[j].0 == a[j].0;
    } else {
      PutNew(a, k, v);
      forall i, j | 0 <= i < j < |r| ensures r[i].0 != r[j].0 {
        if j == |a| {
          assert r[i] == a[i];
        } else {
          assert r[i] == a[i] && r[j] == a[j];
        }
      }
    }
  }

  /** The next integer key `$a[] = ...` uses: one above the largest integer key, and never below 0. */
  function NextIndex<V>(a: Arr<V>): (r: nat)
    ensures forall i :: 0 <= i < |a| && a[i].0.Int? ==> a[i].0.n < r
  {
    if |a| == 0 then 0
    else
      var m := NextIndex(a[..|a| - 1]);
      assert forall i :: 0 <= i < |a| - 1 ==> a[..|a| - 1][i] == a[i];
      if a[|a| - 1].0.Int? && a[|a| - 1].0.n + 1 > m then a[|a| - 1].0.n + 1 else m
  }

  /** Appending a string-keyed entry leaves the next integer key alone. */
  lemma NextIndexSnocStr<V>(a: Arr<V>, s: string, v: V)
    ensures NextIndex(a + [(Str(s), v)]) == NextIndex(a)
  {
    assert (a + [(Str(s), v)])[..|a|] == a;
  }

  /** Appending under the next integer key moves it up by one. */
  lemma NextIndexSnocInt<V>(a: Arr<V>, v: V)
    ensures NextIndex(a + [(Int(NextIndex(a)), v)]) == NextIndex(a) + 1
  {
    assert (a + [(Int(NextIndex(a)), v)])[..|a|] == a;
  }

  /** `$a[] = $v`. */
  function Push<V>(a: Arr<V>, v: V): (r: Arr<V>)
    ensures r == a + [(Int(NextIndex(a)), v)]
  {
    assert Int(NextIndex(a)) !in KeysOf(a);
    PutNew(a, Int(NextIndex(a)), v);
    Put(a, Int(NextIndex(a)), v)
  }

  // ---------------------------------------------------------------- lists

  /** The list `array($s[0], $s[1], ...)`, keyed 0, 1, 2, ... */
  function ListOf<V>(s: seq<V>): (a: Arr<V>)
    ensures |a| == |s|
    ensures forall i :: 0 <= i < |s| ==> a[i] == (Int(i), s[i])
  {
    seq(|s|, i requires 0 <= i < |s| => (Int(i), s[i]))
  }

  /** `array_values($a)`. */
  function Values<V>(a: Arr<V>): (r: seq<V>)
    ensures |r| == |a|
    ensures forall i :: 0 <= i < |a| ==> r[i] == a[i].1
  {
    seq(|a|, i requires 0 <= i < |a| => a[i].1)
  }

  /** In a list, key `i` holds the `i`-th element. */
  lemma GetList<V>(s: seq<V>, i: int)
    ensures Get(ListOf(s), Int(i)) == if 0 <= i < |s| then Some(s[i]) else None
  {
    var a := ListOf(s);
    if 0 <= i < |s| {
      assert UniqueKeys(a);
      GetAt(a, i);
    } else {
      GetSome(a, Int(i));
    }
  }

  /** Integer keys renumbered from `next` on, in order; string keys kept. */
  function Renumber<V>(a: Arr<V>, next: nat): (r: Arr<V>)
    ensures |r| == |a|
    decreases |a|
  {
    if |a| == 0 then []
    else if a[0].0.Int? then [(Int(next), a[0].1)] + Renumber(a[1..], next + 1)
    else [a[0]] + Renumber(a[1..], next)
  }

  /** `array_shift($a)`'s effect on the array: the first entry removed, integer keys renumbered from 0. */
  function Shift<V>(a: Arr<V>): (r: Arr<V>)
    ensures |a| > 0 ==> |r| == |a| - 1
  {
    if |a| == 0 then [] else Renumber(a[1..], 0)
  }

  lemma {:induction false} RenumberAllInt<V>(a: Arr<V>, next: nat)
    requires forall i :: 0 <= i < |a| ==> a[i].0.Int?
    ensures Renumber(a, next) == seq(|a|, i requires 0 <= i < |a| => (Int(next + i), a[i].1))
    decreases |a|
  {
    if |a| > 0 {
      RenumberAllInt(a[1..], next + 1);
    }
  }

  /** Shifting a list leaves the list of the remaining elements. */
  lemma ShiftList<V>(s: seq<V>)
    requires |s| > 0
    ensures Shift(ListOf(s)) == ListOf(s[1..])
  {
    RenumberAllInt(ListOf(s)[1..], 0);
  }

  // ---------------------------------------------------------------- array_merge

  /** The integer keys of `a`, in order. */
  function IntKeys<V>(a: Arr<V>): seq<int>
    decreases |a|
  {
    if |a| == 0 then []
    else IntKeys(a[..|a| - 1]) + (if a[|a| - 1].0.Int? then [a[|a| - 1].0.n] else [])
  }

  /** The values held under integer keys, in order. */
  function IntValues<V>(a: Arr<V>): seq<V>
    decreases |a|
  {
    if |a| == 0 then []
    else IntValues(a[..|a| - 1]) + (if a[|a| - 1].0.Int? then [a[|a| - 1].1] else [])
  }

  /** The values held under string keys, with their keys, in order. */
  function StrEntries<V>(a: Arr<V>): Arr<V>
    decreases |a|
  {
    if |a| == 0 then []
    else StrEntries(a[..|a| - 1]) + (if a[|a| - 1].0.Str? then [a[|a| - 1]] else [])
  }

  /** The integer keys of `a` are 0, 1, 2, ... in order (what `array_merge` produces). */
  predicate Renumbered<V>(a: Arr<V>) {
    forall i :: 0 <= i < |IntKeys(a)| ==> IntKeys(a)[i] == i
  }

  lemma {:induction false} IntKeysValuesLength<V>(a: Arr<V>)
    ensures |IntKeys(a)| == |IntValues(a)|
    decreases |a|
  {
    if |a| > 0 {
      IntKeysValuesLength(a[..|a| - 1]);
    }
  }

  lemma {:induction false} NextIndexRenumbered<V>(a: Arr<V>)
    requires Renumbered(a)
    ensures NextIndex(a) == |IntKeys(a)|
    decreases |a|
  {
    if |a| > 0 {
      var b := a[..|a| - 1];
      assert IntKeys(a)[..|IntKeys(b)|] == IntKeys(b);
      NextIndexRenumbered(b);
      if a[|a| - 1].0.Int? {
        assert IntKeys(a) == IntKeys(b) + [a[|a| - 1].0.n];
        assert IntKeys(a)[|IntKeys(b)|] == a[|a| - 1].0.n;
      }
    }
  }

  /** Entries appended or overwritten under a string key leave the integer part alone. */
  lemma {:induction false} IntPartsUnderStrUpdate<V>(a: Arr<V>, i: nat, e: (Key, V))
    requires i < |a| && a[i].0.Str? && e.0.Str?
    ensures IntKeys(a[i := e]) == IntKeys(a) && IntValues(a[i := e]) == IntValues(a)
    decreases |a|
  {
    var b := a[i := e];
    assert b[|b| - 1].0.Int? == a[|a| - 1].0.Int?;
    if i == |a| - 1 {
      assert b[..|b| - 1] == a[..|a| - 1];
    } else {
      assert b[|b| - 1] == a[|a| - 1];
      assert b[..|b| - 1] == a[..|a| - 1][i := e];
      IntPartsUnderStrUpdate(a[..|a| - 1], i, e);
    }
  }

  lemma StrEntriesAppend<V>(a: Arr<V>, e: (Key, V))
    ensures StrEntries(a + [e]) == StrEntries(a) + (if e.0.Str? then [e] else [])
    ensures IntKeys(a + [e]) == IntKeys(a) + (if e.0.Int? then [e.0.n] else [])
    ensures IntValues(a + [e]) == IntValues(a) + (if e.0.Int? then [e.1] else [])
  {
    assert (a + [e])[..|a|] == a;
  }

  /** One step of `array_merge`: integer-keyed entries are pushed, string-keyed ones assigned. */
  function MergeStep<V>(r: Arr<V>, e: (Key, V)): Arr<V> {
    if e.0.Int? then Push(r, e.1) else Put(r, e.0, e.1)
  }

  function MergeInto<V>(r: Arr<V>, b: Arr<V>): Arr<V>
    decreases |b|
  {
    if |b| == 0 then r else MergeInto(MergeStep(r, b[0]), b[1..])
  }

  /** `array_merge($a, $b)`. */
  function Merge<V>(a: Arr<V>, b: Arr<V>): Arr<V> {
    MergeInto(MergeInto([], a), b)
  }

  /** With only string keys, `$a[] = ...` starts at 0. */
  lemma {:induction false} NextIndexAllStr<V>(z: Arr<V>)
    requires forall i :: 0 <= i < |z| ==> z[i].0.Str?
    ensures NextIndex(z) == 0
    decreases |z|
  {
    if |z| > 0 {
      NextIndexAllStr(z[..|z| - 1]);
    }
  }

  /** After string-keyed entries and a list, `$a[] = ...` continues the list. */
  lemma {:induction false} NextIndexStrThenList<V>(z: Arr<V>, x: seq<V>)
    requires forall i :: 0 <= i < |z| ==> z[i].0.Str?
    ensures NextIndex(z + ListOf(x)) == |x|
    decreases |x|
  {
    if |x| == 0 {
      assert z + ListOf(x) == z;
      NextIndexAllStr(z);
    } else {
      var w := z + ListOf(x);
      assert w[..|w| - 1] == z + ListOf(x[..|x| - 1]);
      NextIndexStrThenList(z, x[..|x| - 1]);
    }
  }

  /** `array_merge` appends string-keyed entries that are new to the array, unchanged and in order. */
  lemma {:induction false} MergeIntoFreshStr<V>(r: Arr<V>, b: Arr<V>)
    requires forall i :: 0 <= i < |b| ==> b[i].0.Str?
    requires UniqueKeys(r + b)
    ensures MergeInto(r, b) == r + b
    decreases |b|
  {
    if |b| > 0 {
      assert b[0].0 !in KeysOf(r) by {
        forall j | 0 <= j < |r| ensures r[j].0 != b[0].0 {
          assert (r + b)[j] == r[j] && (r + b)[|r|] == b[0];
        }
      }
      PutNew(r, b[0].0, b[0].1);
      assert (r + [b[0]]) + b[1..] == r + b;
      MergeIntoFreshStr(r + [b[0]], b[1..]);
    }
  }

  /** Merging a list after string-keyed entries appends the list with its keys 0, 1, 2, ... */
  lemma {:induction false} MergeIntoStrThenList<V>(z: Arr<V>, x: seq<V>, i: nat)
    requires forall j :: 0 <= j < |z| ==> z[j].0.Str?
    requires i <= |x|
    ensures MergeInto(z + ListOf(x[..i]), ListOf(x)[i..]) == z + ListOf(x)
    decreases |x| - i
  {
    if i < |x| {
      var w := z + ListOf(x[..i]);
      NextIndexStrThenList(z, x[..i]);
      MergeIntoListStep(w, x, i);
      ListOfSnoc(x, i);
      assert w + [(Int(i), x[i])] == z + ListOf(x[..i + 1]);
      MergeIntoStrThenList(z, x, i + 1);
    } else {
      assert x[..i] == x;
    }
  }

  lemma MergeIntoListStep<V>(w: Arr<V>, x: seq<V>, i: nat)
    requires i < |x|
    ensures MergeInto(w, ListOf(x)[i..]) == MergeInto(MergeStep(w, (Int(i), x[i])), ListOf(x)[i + 1..])
  {
    var rest := ListOf(x)[i..];
    assert rest[0] == (Int(i), x[i]);
    assert rest[1..] == ListOf(x)[i + 1..];
  }

  /** String-keyed entries followed by a list: the integer-keyed values are the list. */
  lemma {:induction false} IntValuesStrThenList<V>(z: Arr<V>, x: seq<V>)
    requires forall j :: 0 <= j < |z| ==> z[j].0.Str?
    ensures IntValues(z + ListOf(x)) == x
    decreases |x|
  {
    if |x| == 0 {
      assert z + ListOf(x) == z;
      IntValuesAllStr(z);
    } else {
      var i := |x| - 1;
      assert x[..i + 1] == x;
      ListOfSnoc(x, i);
      assert z + ListOf(x) == (z + ListOf(x[..i])) + [(Int(i), x[i])];
      StrEntriesAppend(z + ListOf(x[..i]), (Int(i), x[i]));
      IntValuesStrThenList(z, x[..i]);
    }
  }

  lemma {:induction false} IntValuesAllStr<V>(z: Arr<V>)
    requires forall j :: 0 <= j < |z| ==> z[j].0.Str?
    ensures IntValues(z) == []
    decreases |z|
  {
    if |z| > 0 {
      IntValuesAllStr(z[..|z| - 1]);
    }
  }

  /** A string key of `z` followed by a list is a key of `z`. */
  lemma StrKeyNotInList<V>(z: Arr<V>, x: seq<V>, s: string)
    requires Str(s) !in KeysOf(z)
    ensures Str(s) !in KeysOf(z + ListOf(x))
  {
    var a := z + ListOf(x);
    forall i | 0 <= i < |a| ensures a[i].0 != Str(s) {
      if i < |z| {
        assert a[i] == z[i];
      } else {
        assert a[i].0 == Int(i - |z|);
      }
    }
  }

  lemma ListOfSnoc<V>(x: seq<V>, i: nat)
    requires i < |x|
    ensures ListOf(x[..i + 1]) == ListOf(x[..i]) + [(Int(i), x[i])]
  {
  }

  /** Merging `b1 + b2` is merging `b1`, then `b2`. */
  lemma {:induction false} MergeIntoAppend<V>(r: Arr<V>, b1: Arr<V>, b2: Arr<V>)
    ensures MergeInto(r, b1 + b2) == MergeInto(MergeInto(r, b1), b2)
    decreases |b1|
  {
    if |b1| > 0 {
      assert (b1 + b2)[0] == b1[0];
      assert (b1 + b2)[1..] == b1[1..] + b2;
      MergeIntoAppend(MergeStep(r, b1[0]), b1[1..], b2);
    } else {
      assert b1 + b2 == b2;
    }
  }

  /**
   * `array_merge(array(), $b)` leaves `$b` unchanged when `$b` is string-keyed
   * entries with distinct keys followed by a list.
   */
  lemma MergeEmptyStrThenList<V>(z: Arr<V>, x: seq<V>)
    requires forall j :: 0 <= j < |z| ==> z[j].0.Str?
    requires UniqueKeys(z)
    ensures Merge([], z + ListOf(x)) == z + ListOf(x)
  {
    assert MergeInto<V>([], []) == [];
    MergeIntoAppend([], z, ListOf(x));
    assert [] + z == z;
    MergeIntoFreshStr([], z);
    assert z + ListOf(x[..0]) == z;
    assert ListOf(x)[0..] == ListOf(x);
    MergeIntoStrThenList(z, x, 0);
  }

  lemma MergeIntoIntParts<V>(r: Arr<V>, b: Arr<V>)
    requires Renumbered(r)
    ensures Renumbered(MergeInto(r, b))
    ensures IntValues(MergeInto(r, b)) == IntValues(r) + IntValues(b)
  {
    MergeIntoRenumbered(r, b);
    MergeIntoIntValues(r, b);
  }

  lemma {:induction false} MergeIntoRenumbered<V>(r: Arr<V>, b: Arr<V>)
    requires Renumbered(r)
    ensures Renumbered(MergeInto(r, b))
    decreases |b|
  {
    if |b| > 0 {
      MergeStepIntParts(r, b[0]);
      MergeIntoRenumbered(MergeStep(r, b[0]), b[1..]);
    }
  }

  lemma {:induction false} MergeIntoIntValues<V>(r: Arr<V>, b: Arr<V>)
    requires Renumbered(r)
    ensures IntValues(MergeInto(r, b)) == IntValues(r) + IntValues(b)
    decreases |b|
  {
    if |b| > 0 {
      var r' := MergeStep(r, b[0]);
      assert MergeInto(r, b) == MergeInto(r', b[1..]);
      MergeStepIntParts(r, b[0]);
      MergeIntoIntValues(r', b[1..]);
      IntValuesCons(b);
      AppendChain(IntValues(MergeInto(r', b[1..])), IntValues(r'), IntValues(r),
        if b[0].0.Int? then [b[0].1] else [], IntValues(b[1..]), IntValues(b));
    } else {
      assert IntValues(r) + IntValues(b) == IntValues(r);
    }
  }

  lemma AppendChain<T>(x: seq<T>, y: seq<T>, r: seq<T>, head: seq<T>, tail: seq<T>, b: seq<T>)
    requires x == y + tail && y == r + head && b == head + tail
    ensures x == r + b
  {
  }

  lemma AppendEmpty<T>(x: seq<T>, e: seq<T>, y: seq<T>)
    requires x == e + y && e == []
    ensures x == y
  {
  }

  /** One merge step keeps the integer keys renumbered and appends an integer-keyed value. */
  lemma MergeStepIntParts<V>(r: Arr<V>, e: (Key, V))
    requires Renumbered(r)
    ensures Renumbered(MergeStep(r, e))
    ensures IntValues(MergeStep(r, e)) == IntValues(r) + (if e.0.Int? then [e.1] else [])
  {
    var r' := MergeStep(r, e);
    if e.0.Int? {
      NextIndexRenumbered(r);
      IntKeysValuesLength(r);
      StrEntriesAppend(r, (Int(NextIndex(r)), e.1));
    } else if e.0 in KeysOf(r) {
      PutExisting(r, e.0, e.1);
      var i :| 0 <= i < |r| && r[i].0 == e.0 && r' == r[i := e];
      IntPartsUnderStrUpdate(r, i, e);
    } else {
      PutNew(r, e.0, e.1);
      StrEntriesAppend(r, e);
    }
  }

  lemma {:induction false} IntValuesCons<V>(b: Arr<V>)
    requires |b| > 0
    ensures IntValues(b) == (if b[0].0.Int? then [b[0].1] else []) + IntValues(b[1..])
    decreases |b|
  {
    if |b| > 1 {
      var c := b[..|b| - 1];
      assert c[1..] == b[1..][..|b[1..]| - 1];
      assert c[0] == b[0];
      IntValuesCons(c);
    }
  }

  /** `array_merge` renumbers integer keys: those of `a` come first, then those of `b`, keyed 0, 1, 2, ... */
  lemma MergeIntKeys<V>(a: Arr<V>, b: Arr<V>)
    ensures Renumbered(Merge(a, b))
    ensures IntValues(Merge(a, b)) == IntValues(a) + IntValues(b)
  {
    var m: Arr<V> := MergeInto([], a);
    assert Renumbered<V>([]);
    MergeIntoIntParts([], a);
    assert IntValues<V>([]) == [];
    AppendEmpty(IntValues(m), IntValues<V>([]), IntValues(a));
    MergeIntoIntParts(m, b);
  }

  lemma {:induction false} MergeIntoStrKey<V>(r: Arr<V>, b: Arr<V>, k: Key)
    requires k.Str? && UniqueKeys(b)
    ensures Get(MergeInto(r, b), k) == if k in KeysOf(b) then Get(b, k) else Get(r, k)
    decreases |b|
  {
    if |b| > 0 {
      var r' := MergeStep(r, b[0]);
      assert UniqueKeys(b[1..]) by {
        forall i, j | 0 <= i < j < |b| - 1 ensures b[1..][i].0 != b[1..][j].0 {
          assert b[1..][i] == b[i + 1] && b[1..][j] == b[j + 1];
        }
      }
      MergeIntoStrKey(r', b[1..], k);
      KeysOfCons(b);
      if k == b[0].0 {
        assert k !in KeysOf(b[1..]) by {
          forall j | 0 <= j < |b| - 1 ensures b[1..][j].0 != k {
            assert b[1..][j] == b[j + 1];
          }
        }
        PutGet(r, k, b[0].1);
      } else if b[0].0.Int? {
        PutGetOther(r, Int(NextIndex(r)), b[0].1, k);
      } else {
        PutGetOther(r, b[0].0, b[0].1, k);
      }
    }
  }

  /** Under a string key, `array_merge($a, $b)` holds `$b`'s value when `$b` has the key, else `$a`'s. */
  lemma MergeStrKey<V>(a: Arr<V>, b: Arr<V>, k: Key)
    requires k.Str? && UniqueKeys(a) && UniqueKeys(b)
    ensures Get(Merge(a, b), k) == if k in KeysOf(b) then Get(b, k) else Get(a, k)
  {
    MergeIntoStrKey(MergeInto([], a), b, k);
    MergeIntoStrKey([], a, k);
    GetSome(a, k);
  }

  /** Merging integer-keyed entries into a list appends their values to the list. */
  lemma {:induction false} MergeIntoInts<V>(r: seq<V>, b: Arr<V>)
    requires forall i :: 0 <= i < |b| ==> b[i].0.Int?
    ensures MergeInto(ListOf(r), b) == ListOf(r + Values(b))
    decreases |b|
  {
    if |b| == 0 {
      assert r + Values(b) == r;
    } else {
      MergeIntoIntsStep(r, b);
      ValuesCons(r, b);
      MergeIntoInts(r + [b[0].1], b[1..]);
    }
  }

  lemma MergeIntoIntsStep<V>(r: seq<V>, b: Arr<V>)
    requires |b| > 0 && b[0].0.Int?
    ensures MergeInto(ListOf(r), b) == MergeInto(ListOf(r + [b[0].1]), b[1..])
  {
    PushList(r, b[0].1);
  }

  lemma ValuesCons<V>(r: seq<V>, b: Arr<V>)
    requires |b| > 0
    ensures r + Values(b) == (r + [b[0].1]) + Values(b[1..])
  {
    assert Values(b) == [b[0].1] + Values(b[1..]);
  }

  /** Pushing onto a list extends the list. */
  lemma PushList<V>(r: seq<V>, x: V)
    ensures Push(ListOf(r), x) == ListOf(r + [x])
  {
    NextIndexList(r);
    assert ListOf(r) + [(Int(|r|), x)] == ListOf(r + [x]);
  }

  lemma NextIndexList<V>(r: seq<V>)
    ensures NextIndex(ListOf(r)) == |r|
  {
    var a := ListOf(r);
    assert Renumbered(a) && |IntKeys(a)| == |r| by {
      ListIntKeys(r);
    }
    NextIndexRenumbered(a);
  }

  lemma {:induction false} ListIntKeys<V>(r: seq<V>)
    ensures IntKeys(ListOf(r)) == seq(|r|, i requires 0 <= i < |r| => i)
    decreases |r|
  {
    if |r| > 0 {
      assert ListOf(r)[..|r| - 1] == ListOf(r[..|r| - 1]);
      ListIntKeys(r[..|r| - 1]);
    }
  }
}
