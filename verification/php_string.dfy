/**
 * The handful of PHP string built-ins the routing code relies on, with the
 * PHP 5/7 behaviour written out: truthiness, `rtrim` with a character list,
 * `implode`, `explode`, `strcasecmp` and `ucfirst` (both ASCII-only).
 */
module PhpString {
  import opened Wrappers

  /** PHP truthiness of a string, which is also `!empty($s)`: only "" and "0" are falsy. */
  predicate Truthy(s: string) {
    s != "" && s != "0"
  }

  /** No character of `s` occurs in the character list `chars`. */
  predicate FreeOf(s: string, chars: string) {
    forall i :: 0 <= i < |s| ==> s[i] !in chars
  }

  /**
   * Every character is 7-bit ASCII. PHP strings are bytes and this model's
   * are characters; on such a string the two readings coincide, which is
   * what a byte-wise built-in such as `rtrim` needs of its character list.
   */
  predicate Ascii(s: string) {
    forall i :: 0 <= i < |s| ==> s[i] < 128 as char
  }

  lemma ConcatAssoc(a: string, b: string, c: string)
    ensures a + (b + c) == a + b + c
  {
  }

  /** `rtrim($s, $chars)`: the longest prefix of `s` left after stripping trailing characters of `chars`. */
  function RTrim(s: string, chars: string): (r: string)
    ensures |r| <= |s| && r == s[..|r|]
    ensures r == "" || r[|r| - 1] !in chars
    ensures forall i :: |r| <= i < |s| ==> s[i] in chars
    decreases |s|
  {
    if s != "" && s[|s| - 1] in chars then RTrim(s[..|s| - 1], chars) else s
  }

  /** Stripping a suffix made only of `chars` gives back a text whose last character is not one of them. */
  lemma RTrimSuffix(x: string, t: string, chars: string)
    requires x != "" && x[|x| - 1] !in chars
    requires forall i :: 0 <= i < |t| ==> t[i] in chars
    ensures RTrim(x + t, chars) == x
  {
    var s := x + t;
    var r := RTrim(s, chars);
    assert s[|x| - 1] == x[|x| - 1];
    assert |r| == |x|;
    assert r == s[..|x|] == x;
  }

  /** `implode($sep, $parts)`. */
  function Join(parts: seq<string>, sep: string): string
    decreases |parts|
  {
    if |parts| == 0 then ""
    else if |parts| == 1 then parts[0]
    else parts[0] + sep + Join(parts[1..], sep)
  }

  /** `sep` occurs in `s` starting at index `j`. */
  predicate MatchAt(s: string, sep: string, j: int) {
    0 <= j && j + |sep| <= |s| && s[j..j + |sep|] == sep
  }

  /** The first occurrence of `sep` in `s` at or after `from` (`strpos`). */
  function FindFrom(sep: string, s: string, from: nat): (r: Option<nat>)
    requires |sep| > 0
    ensures r.Some? ==> from <= r.value && MatchAt(s, sep, r.value)
    ensures r.Some? ==> forall j :: from <= j < r.value ==> !MatchAt(s, sep, j)
    ensures r.None? ==> forall j :: from <= j ==> !MatchAt(s, sep, j)
    decreases |s| - from
  {
    if from + |sep| > |s| then None
    else if s[from..from + |sep|] == sep then Some(from)
    else FindFrom(sep, s, from + 1)
  }

  /** `explode($sep, $s)` for a non-empty separator: the pieces between occurrences of `sep`. */
  function Split(sep: string, s: string): (r: seq<string>)
    requires |sep| > 0
    ensures |r| >= 1
    ensures Join(r, sep) == s
    ensures FindFrom(sep, s, 0).Some? ==> |r| >= 2
    ensures FindFrom(sep, s, 0).Some? ==> r[0] == s[..FindFrom(sep, s, 0).value]
    ensures FindFrom(sep, s, 0).None? ==> r == [s]
    decreases |s|
  {
    match FindFrom(sep, s, 0)
    case None => [s]
    case Some(j) =>
      var rest := Split(sep, s[j + |sep|..]);
      assert s == s[..j] + sep + s[j + |sep|..];
      [s[..j]] + rest
  }

  /** `explode($sep, $s)`: PHP refuses an empty separator (it returns `false`), modelled as `None`. */
  function Explode(sep: string, s: string): (r: Option<seq<string>>)
    ensures r.None? <==> sep == ""
    ensures r.Some? ==> |r.value| >= 1 && Join(r.value, sep) == s
  {
    if sep == "" then None else Some(Split(sep, s))
  }

  /** A piece free of separator characters never hides an occurrence of the separator. */
  lemma NoMatchInside(p: string, rest: string, sep: string, j: int)
    requires |sep| > 0 && FreeOf(p, sep) && 0 <= j < |p|
    ensures !MatchAt(p + rest, sep, j)
  {
    assert (p + rest)[j] == p[j];
  }

  /** `explode` undoes `implode` when no piece contains a character of the separator. */
  lemma {:induction false} SplitJoin(parts: seq<string>, sep: string)
    requires |sep| > 0 && |parts| >= 1
    requires forall i :: 0 <= i < |parts| ==> FreeOf(parts[i], sep)
    ensures Split(sep, Join(parts, sep)) == parts
    decreases |parts|
  {
    var p := parts[0];
    if |parts| == 1 {
      var f := FindFrom(sep, p, 0);
      if f.Some? {
        assert p + "" == p;
        NoMatchInside(p, "", sep, f.value);
        assert false;
      }
    } else {
      var tail := Join(parts[1..], sep);
      var s := p + sep + tail;
      assert s == p + (sep + tail);
      assert MatchAt(s, sep, |p|) by {
        assert s[|p|..|p| + |sep|] == sep;
      }
      forall j | 0 <= j < |p|
        ensures !MatchAt(s, sep, j)
      {
        NoMatchInside(p, sep + tail, sep, j);
      }
      var f := FindFrom(sep, s, 0);
      assert f == Some(|p|);
      assert s[|p| + |sep|..] == tail;
      assert s[..|p|] == p;
      SplitJoin(parts[1..], sep);
      assert parts == [p] + parts[1..];
    }
  }

  /** Exploding `p + sep + rest` when `p` holds no separator character: `p`, then the pieces of `rest`. */
  lemma SplitCons(p: string, rest: string, sep: string)
    requires |sep| > 0 && FreeOf(p, sep)
    ensures Split(sep, p + sep + rest) == [p] + Split(sep, rest)
  {
    var s := p + sep + rest;
    assert s == p + (sep + rest);
    assert MatchAt(s, sep, |p|) by {
      assert s[|p|..|p| + |sep|] == sep;
    }
    forall j | 0 <= j < |p|
      ensures !MatchAt(s, sep, j)
    {
      NoMatchInside(p, sep + rest, sep, j);
    }
    assert FindFrom(sep, s, 0) == Some(|p|);
    assert s[|p| + |sep|..] == rest;
    assert s[..|p|] == p;
  }

  /**
   * `list($head, $second) = explode(':', $spec)`: the piece before the first
   * ':' (wherever it is, position 0 included) and the piece after it, later
   * pieces dropped; without ':' the whole text and no second piece.
   */
  function SplitSpec(spec: string): (r: (string, Option<string>))
    ensures r.1.Some? <==> FindFrom(":", spec, 0).Some?
    ensures r.1.None? ==> r.0 == spec
    ensures r.1.Some? ==> r.0 == spec[..FindFrom(":", spec, 0).value]
  {
    if FindFrom(":", spec, 0).Some? then
      var parts := Split(":", spec);
      (parts[0], Some(parts[1]))
    else (spec, None)
  }

  /** A text without ':' contains no match of ":". */
  lemma NoColon(s: string, rest: string)
    requires FreeOf(s, ":")
    ensures FindFrom(":", s + rest, 0).Some? ==> FindFrom(":", s + rest, 0).value >= |s|
  {
    var f := FindFrom(":", s + rest, 0);
    if f.Some? && f.value < |s| {
      NoMatchInside(s, rest, ":", f.value);
    }
  }

  /** Splitting undoes writing `head:second` when neither part contains ':'. */
  lemma SplitSpecJoin(head: string, second: string)
    requires FreeOf(head, ":") && FreeOf(second, ":")
    ensures SplitSpec(head + ":" + second) == (head, Some(second))
    ensures SplitSpec(head) == (head, None)
  {
    var s := head + ":" + second;
    assert s == head + (":" + second);
    assert MatchAt(s, ":", |head|) by {
      assert s[|head|..|head| + 1] == ":";
    }
    NoColon(head, ":" + second);
    assert Join([head, second], ":") == s;
    SplitJoin([head, second], ":");
    assert head + "" == head;
    NoColon(head, "");
  }

  /** Pieces after the second are dropped: `head:second:...` splits into `head` and `second`. */
  lemma SplitSpecDropsRest(head: string, second: string, tail: string)
    requires FreeOf(head, ":") && FreeOf(second, ":") && tail != "" && tail[0] == ':'
    ensures SplitSpec(head + ":" + second + tail) == (head, Some(second))
  {
    var s := head + ":" + second + tail;
    assert s == head + ":" + (second + ":" + tail[1..]);
    assert second + tail == second + ":" + tail[1..];
    SplitCons(head, second + tail, ":");
    SplitCons(second, tail[1..], ":");
    assert MatchAt(s, ":", |head|) by {
      assert s[|head|..|head| + 1] == ":";
    }
  }

  /** ASCII upper case to lower case, every other character unchanged. */
  function LowerChar(c: char): char {
    if 'A' <= c <= 'Z' then (c as int + 32) as char else c
  }

  /** ASCII lower case to upper case, every other character unchanged. */
  function UpperChar(c: char): char {
    if 'a' <= c <= 'z' then (c as int - 32) as char else c
  }

  function Lower(s: string): (r: string)
    ensures |r| == |s|
    ensures forall i :: 0 <= i < |s| ==> r[i] == LowerChar(s[i])
  {
    seq(|s|, i requires 0 <= i < |s| => LowerChar(s[i]))
  }

  /** `strcasecmp($a, $b) == 0`: equality up to ASCII case. */
  predicate EqualsIgnoreCase(a: string, b: string) {
    Lower(a) == Lower(b)
  }

  /** `ucfirst($s)`: the first character upper-cased, the rest unchanged. */
  function Ucfirst(s: string): (r: string)
    ensures |r| == |s|
    ensures s != "" ==> r[0] == UpperChar(s[0]) && r[1..] == s[1..]
  {
    if s == "" then s else [UpperChar(s[0])] + s[1..]
  }
}
