/**
 * The string operations the scripts apply to crop names and feature names:
 * Python's `str.lower()`, `str.strip()`, the substring test `"__" in name`
 * and `name.split("__")[1]`.
 */
module Text {
  import opened Wrappers

  predicate IsUpper(c: char) {
    'A' <= c <= 'Z'
  }

  /** Case folding of one character, as `str.lower()` does on ASCII letters. */
  function LowerChar(c: char): (d: char)
    ensures !IsUpper(d)
    ensures IsUpper(c) ==> d as int == c as int + 32
    ensures !IsUpper(c) ==> d == c
  {
    if IsUpper(c) then (c as int + 32) as char else c
  }

  /** `str.lower()`: every letter is folded, every other character is kept in place. */
  function Lower(s: string): (r: string)
    ensures |r| == |s|
    ensures forall i :: 0 <= i < |r| ==> r[i] == LowerChar(s[i])
    ensures forall i :: 0 <= i < |r| ==> !IsUpper(r[i])
  {
    if s == [] then [] else [LowerChar(s[0])] + Lower(s[1..])
  }

  predicate NoUpper(s: string) {
    forall i :: 0 <= i < |s| ==> !IsUpper(s[i])
  }

  /** The characters Python's `str.strip()` removes (Py_UNICODE_ISSPACE). */
  predicate IsSpace(c: char) {
    var k := c as int;
    k == 0x20 || 0x09 <= k <= 0x0D || 0x1C <= k <= 0x1F || k == 0x85 || k == 0xA0
    || k == 0x1680 || 0x2000 <= k <= 0x200A || k == 0x2028 || k == 0x2029
    || k == 0x202F || k == 0x205F || k == 0x3000
  }

  /** Every character of `s` from `lo` up to (not including) `hi` is whitespace. */
  predicate SpaceBetween(s: string, lo: int, hi: int)
    requires 0 <= lo <= hi <= |s|
  {
    forall i | lo <= i < hi :: IsSpace(s[i])
  }

  /** No whitespace at either end: what `str.strip()` guarantees of its result. */
  predicate Trimmed(s: string) {
    s == [] || (!IsSpace(s[0]) && !IsSpace(s[|s| - 1]))
  }

  /** `str.lstrip()`: removes exactly the leading whitespace. */
  function StripStart(s: string): (r: string)
    ensures |r| <= |s| && r == s[|s| - |r|..]
    ensures SpaceBetween(s, 0, |s| - |r|)
    ensures r != [] ==> !IsSpace(r[0])
  {
    if s != [] && IsSpace(s[0]) then StripStart(s[1..]) else s
  }

  /** `str.rstrip()`: removes exactly the trailing whitespace. */
  function StripEnd(s: string): (r: string)
    ensures |r| <= |s| && r == s[..|r|]
    ensures SpaceBetween(s, |r|, |s|)
    ensures r != [] ==> !IsSpace(r[|r| - 1])
  {
    if s != [] && IsSpace(s[|s| - 1]) then StripEnd(s[..|s| - 1]) else s
  }

  /**
   * `str.strip()`: the result is a contiguous slice of the input with nothing
   * but whitespace cut from either end, and it has no whitespace at its ends.
   */
  function Strip(s: string): (r: string)
    ensures Trimmed(r)
    ensures exists a, b | 0 <= a <= b <= |s| :: r == s[a..b] && SpaceBetween(s, 0, a) && SpaceBetween(s, b, |s|)
  {
    var t := StripStart(s);
    var r := StripEnd(t);
    StripSlice(s, t, r);
    r
  }

  /** Cutting leading, then trailing, whitespace leaves a trimmed slice of the input. */
  lemma StripSlice(s: string, t: string, r: string)
    requires |t| <= |s| && t == s[|s| - |t|..] && SpaceBetween(s, 0, |s| - |t|)
    requires t != [] ==> !IsSpace(t[0])
    requires |r| <= |t| && r == t[..|r|] && SpaceBetween(t, |r|, |t|)
    requires r != [] ==> !IsSpace(r[|r| - 1])
    ensures Trimmed(r)
    ensures exists a, b | 0 <= a <= b <= |s| :: r == s[a..b] && SpaceBetween(s, 0, a) && SpaceBetween(s, b, |s|)
  {
    var a := |s| - |t|;
    var b := a + |r|;
    assert r == s[a..b];
    forall i | b <= i < |s|
      ensures IsSpace(s[i])
    {
      assert s[i] == t[i - a];
    }
  }

  /** The crop normalisation `.str.lower().str.strip()` of the training scripts. */
  function Normalise(s: string): (r: string)
    ensures NoUpper(r) && Trimmed(r)
  {
    var l := Lower(s);
    StripKeepsNoUpper(l);
    Strip(l)
  }

  /** Stripping only removes characters, so it adds no capital. */
  lemma StripKeepsNoUpper(s: string)
    requires NoUpper(s)
    ensures NoUpper(Strip(s))
  {
    var t := StripStart(s);
    SliceKeepsNoUpper(s, |s| - |t|, |s|);
    SliceKeepsNoUpper(t, 0, |StripEnd(t)|);
  }

  lemma SliceKeepsNoUpper(s: string, a: int, b: int)
    requires NoUpper(s) && 0 <= a <= b <= |s|
    ensures NoUpper(s[a..b])
  {
    forall i | 0 <= i < b - a
      ensures !IsUpper(s[a..b][i])
    {
      assert s[a..b][i] == s[a + i];
    }
  }

  lemma {:induction false} LowerOfLowercase(s: string)
    requires NoUpper(s)
    ensures Lower(s) == s
  {
    if s != [] {
      LowerOfLowercase(s[1..]);
    }
  }

  lemma StripOfTrimmed(s: string)
    requires Trimmed(s)
    ensures Strip(s) == s
  {
    assert StripStart(s) == s;
    assert StripEnd(s) == s;
  }

  /** Normalising twice changes nothing: a normalised crop name is a fixed point. */
  lemma NormaliseIdempotent(s: string)
    ensures Normalise(Normalise(s)) == Normalise(s)
  {
    var n := Normalise(s);
    LowerOfLowercase(n);
    StripOfTrimmed(n);
  }

  // ---------------------------------------------------------------------------
  // The "__" separator of scikit-learn's generated feature names.

  /** `s` holds the separator "__" starting at index `i`. */
  predicate SepAt(s: string, i: int) {
    0 <= i && i + 1 < |s| && s[i] == '_' && s[i + 1] == '_'
  }

  /** Python's `"__" in s`. */
  predicate HasSep(s: string) {
    exists i | 0 <= i < |s| :: SepAt(s, i)
  }

  /** `s.find("__", from)`: the first separator starting at or after `from`. */
  function FindSep(s: string, from: nat): (r: Option<nat>)
    ensures r.Some? ==> from <= r.value && SepAt(s, r.value)
    ensures r.Some? ==> forall j :: from <= j < r.value ==> !SepAt(s, j)
    ensures r.None? ==> forall j :: from <= j ==> !SepAt(s, j)
    decreases |s| - from
  {
    if from + 1 >= |s| then None
    else if SepAt(s, from) then Some(from)
    else FindSep(s, from + 1)
  }

  /** `"__".join(pieces)`. */
  function Join(pieces: seq<string>): (s: string)
    ensures |pieces| == 1 ==> s == pieces[0]
  {
    if |pieces| == 0 then ""
    else if |pieces| == 1 then pieces[0]
    else pieces[0] + "__" + Join(pieces[1..])
  }

  /**
   * `s.split("__")`: the pieces between the separators, left to right. There
   * is always at least one, there are several exactly when `s` holds the
   * separator, no piece holds it, and joining them again gives back `s`.
   */
  function Split(s: string): (r: seq<string>)
    ensures |r| >= 1
    ensures |r| == 1 <==> !HasSep(s)
    ensures forall k | 0 <= k < |r| :: !HasSep(r[k])
    ensures Join(r) == s
    decreases |s|
  {
    match FindSep(s, 0)
    case None => [s]
    case Some(p) =>
      NoSepBefore(s, p);
      var rest := Split(s[p + 2..]);
      assert s[..p] + "__" + s[p + 2..] == s;
      [s[..p]] + rest
  }

  /** The text before the first separator holds none. */
  lemma NoSepBefore(s: string, p: nat)
    requires p <= |s| && forall j :: 0 <= j < p ==> !SepAt(s, j)
    ensures !HasSep(s[..p])
  {
    forall j | 0 <= j < p
      ensures !SepAt(s[..p], j)
    {
      assert SepAt(s[..p], j) ==> SepAt(s, j);
    }
  }

  /**
   * `s.split("__")[1]` for a name that holds the separator: the text between
   * the first separator and the next one (or the end of the name).
   */
  function SecondPiece(s: string): (r: string)
    requires HasSep(s)
    ensures !HasSep(r)
    ensures r == Split(s)[1]
  {
    FirstSepFound(s);
    var start := FindSep(s, 0).value + 2;
    var q := FindSep(s, start);
    var stop := if q.Some? then q.value else |s|;
    SecondPieceIsSplit(s, start, stop);
    s[start..stop]
  }

  /** A text that holds the separator has a first one. */
  lemma FirstSepFound(s: string)
    requires HasSep(s)
    ensures FindSep(s, 0).Some?
  {
    var i :| 0 <= i < |s| && SepAt(s, i);
  }

  /** The text from the end of the first separator to the next one is the second piece of the split. */
  lemma SecondPieceIsSplit(s: string, start: nat, stop: nat)
    requires FindSep(s, 0).Some? && start == FindSep(s, 0).value + 2
    requires FindSep(s, start).Some? ==> stop == FindSep(s, start).value
    requires FindSep(s, start).None? ==> stop == |s|
    ensures start <= stop <= |s|
    ensures !HasSep(s[start..stop]) && Split(s)[1] == s[start..stop]
  {
    NoSepBetween(s, start, stop);
    SepShifted(s, start);
    SplitAfter(s[start..], stop - start);
    assert s[start..][..stop - start] == s[start..stop];
  }

  /** The text between the end of a separator and the next one holds none. */
  lemma NoSepBetween(s: string, start: nat, stop: nat)
    requires start <= stop <= |s| && forall j :: start <= j < stop ==> !SepAt(s, j)
    ensures !HasSep(s[start..stop])
  {
    var r := s[start..stop];
    forall j | 0 <= j < |r|
      ensures !SepAt(r, j)
    {
      assert SepAt(r, j) ==> SepAt(s, start + j);
    }
  }

  /** The separators of a suffix are those of the whole text, shifted. */
  lemma SepShifted(s: string, start: nat)
    requires start <= |s|
    ensures forall j | 0 <= j :: SepAt(s[start..], j) <==> SepAt(s, start + j)
  {
  }

  /** A text whose first separator is at `q` (or which has none, `q` its length) splits first into its first `q` characters. */
  lemma SplitAfter(t: string, q: nat)
    requires q <= |t| && (q == |t| || SepAt(t, q)) && forall j :: 0 <= j < q ==> !SepAt(t, j)
    ensures Split(t)[0] == t[..q]
  {
    if q == |t| {
      assert FindSep(t, 0).None?;
    } else {
      assert FindSep(t, 0) == Some(q);
    }
  }

  /** The feature-name cleanup: the second "__"-piece of a name that has one, any other name as it is. */
  function CleanName(s: string): (r: string)
    ensures !HasSep(r)
    ensures !HasSep(s) ==> r == s
    ensures HasSep(s) ==> r == Split(s)[1]
  {
    if HasSep(s) then SecondPiece(s) else s
  }

  /**
   * A generated name `prefix + "__" + feature` cleans to `feature` when
   * neither part holds the separator and the prefix does not end in '_'.
   */
  lemma {:induction false} CleanNameOfPrefixed(prefix: string, feature: string)
    requires !HasSep(prefix) && (prefix == [] || prefix[|prefix| - 1] != '_') && !HasSep(feature)
    ensures CleanName(prefix + "__" + feature) == feature
  {
    var s := prefix + "__" + feature;
    var p := |prefix|;
    assert SepAt(s, p);
    forall j | 0 <= j < p
      ensures !SepAt(s, j)
    {
      if j + 1 < p {
        assert SepAt(s, j) ==> SepAt(prefix, j);
      }
    }
    assert FindSep(s, 0) == Some(p) by {
      FindSepFirst(s, 0, p);
    }
    assert s[p + 2..] == feature;
    assert Split(feature) == [feature];
  }

  /** The first separator at or after `from` is found. */
  lemma {:induction false} FindSepFirst(s: string, from: nat, p: nat)
    requires from <= p && SepAt(s, p) && forall j :: from <= j < p ==> !SepAt(s, j)
    ensures FindSep(s, from) == Some(p)
    decreases p - from
  {
    if from < p {
      FindSepFirst(s, from + 1, p);
    }
  }

  /** The names scikit-learn gives the numeric and categorical columns clean to the columns' own names. */
  lemma CleanNameExamples()
    ensures CleanName("num__soil_moisture_percent") == "soil_moisture_percent"
  {
    var prefix, feature := "num", "soil_moisture_percent";
    NoSepInExample();
    CleanNameOfPrefixed(prefix, feature);
    assert prefix + "__" + feature == "num__soil_moisture_percent";
  }

  /** Neither part of the example name holds the separator. */
  lemma NoSepInExample()
    ensures !HasSep("num") && !HasSep("soil_moisture_percent")
  {
    NoSep("num");
    NoSep("soil_moisture_percent");
  }

  /** A name in which no '_' is followed by another holds no separator. */
  lemma NoSep(s: string)
    requires forall i | 0 <= i < |s| - 1 :: !(s[i] == '_' && s[i + 1] == '_')
    ensures !HasSep(s)
  {
  }
}
