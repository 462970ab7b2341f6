/**
 * The parts of Python's value and string semantics that the two scrapers rely on:
 * `None`, raised exceptions, `dict.get` versus `dict[...]`, `str.find`, `str.replace`,
 * `str.strip`, slicing and ASCII `str.lower`.
 */
module Py {

  datatype Option<+T> = None | Some(value: T)

  /** `v if v is not None else default`. */
  function OrElse<T>(o: Option<T>, default: T): T
  {
    match o
    case Some(v) => v
    case None => default
  }

  /** The exceptions the modelled code can raise. */
  datatype PyError =
    | TypeError(message: string)
    | IndexError
    | KeyError(key: string)
    | ValueError(message: string)

  /** The outcome of a Python expression: a value, or an exception that propagates. */
  datatype Result<+T> = Ok(value: T) | Err(error: PyError) {
    predicate IsFailure() { Err? }
    function PropagateFailure<U>(): Result<U>
      requires Err?
    {
      Err(error)
    }
    function Extract(): T
      requires Ok?
    {
      value
    }
  }

  /** A key of a decoded JSON object: missing, present with `null`, or present with a value. */
  datatype Field<+T> = Absent | Null | Val(value: T)

  /** `d.get(key, default)`: the default is used only when the key is missing; `null` reads as `None`. */
  function Get<T>(f: Field<T>, default: Option<T>): Option<T>
  {
    match f
    case Absent => default
    case Null => None
    case Val(v) => Some(v)
  }

  /** `d[key]`: a missing key raises `KeyError`. */
  function Index<T>(f: Field<T>, key: string): Result<Option<T>>
  {
    match f
    case Absent => Err(KeyError(key))
    case Null => Ok(None)
    case Val(v) => Ok(Some(v))
  }

  /** `str(x)` of an optional string, as an f-string prints it: `None` prints as "None". */
  function Str(o: Option<string>): string
  {
    match o
    case Some(s) => s
    case None => "None"
  }

  /** `[v for v in s if v is not None]`: the present values, in order. */
  function Present<T>(s: seq<Option<T>>): (r: seq<T>)
    ensures |r| <= |s|
  {
    if s == [] then []
    else Present(s[..|s| - 1]) + (if s[|s| - 1].Some? then [s[|s| - 1].value] else [])
  }

  /** Filtering keeps the order: the present values of a concatenation are those of each part, one after the other. */
  lemma {:induction false} PresentAppend<T>(s: seq<Option<T>>, t: seq<Option<T>>)
    ensures Present(s + t) == Present(s) + Present(t)
    decreases |t|
  {
    if t == [] {
      assert s + t == s;
    } else {
      PresentAppend(s, t[..|t| - 1]);
      assert (s + t)[..|s + t| - 1] == s + t[..|t| - 1];
    }
  }

  /** Filtering keeps exactly the present values. */
  lemma {:induction false} PresentMembers<T>(s: seq<Option<T>>)
    ensures forall x :: x in Present(s) <==> Some(x) in s
  {
    if s != [] {
      PresentMembers(s[..|s| - 1]);
      assert s == s[..|s| - 1] + [s[|s| - 1]];
    }
  }

  /** With nothing missing, filtering keeps every value. */
  lemma {:induction false} PresentAll<T>(s: seq<Option<T>>)
    requires forall i :: 0 <= i < |s| ==> s[i].Some?
    ensures |Present(s)| == |s|
    ensures forall i :: 0 <= i < |s| ==> Present(s)[i] == s[i].value
  {
    if s != [] {
      PresentAll(s[..|s| - 1]);
    }
  }

  // ---------------------------------------------------------------------------
  // Substrings
  // ---------------------------------------------------------------------------

  /** `p` occurs in `s` starting at index `i`. */
  predicate OccursAt(s: string, p: string, i: int)
  {
    0 <= i && i + |p| <= |s| && s[i..i + |p|] == p
  }

  /** `s.find(p, start)` for a non-negative `start`: the first index at or after `start` where `p` occurs, else -1. */
  function Find(s: string, p: string, start: nat): (r: int)
    ensures r == -1 || (start <= r && OccursAt(s, p, r))
    ensures forall j :: start <= j && (r == -1 || j < r) ==> !OccursAt(s, p, j)
    decreases |s| - start
  {
    if start + |p| > |s| then -1
    else if s[start..start + |p|] == p then start
    else Find(s, p, start + 1)
  }

  /** `p in s` for strings. */
  predicate Contains(s: string, p: string)
  {
    Find(s, p, 0) >= 0
  }

  lemma ContainsIff(s: string, p: string)
    ensures Contains(s, p) <==> exists i :: OccursAt(s, p, i)
  {
    if exists i :: OccursAt(s, p, i) {
      var i :| OccursAt(s, p, i);
      assert !(Find(s, p, 0) == -1);
    }
  }

  /** A string occurs where it is written between two others. */
  lemma OccursBetween(a: string, b: string, c: string)
    ensures OccursAt(a + b + c, b, |a|)
  {
    assert (a + b + c)[|a|..|a| + |b|] == b;
  }

  /** Writing text after a string keeps an occurrence where it is. */
  lemma OccursAppended(s: string, c: string, p: string, i: int)
    requires OccursAt(s, p, i)
    ensures OccursAt(s + c, p, i)
  {
    assert (s + c)[i..i + |p|] == s[i..i + |p|];
  }

  /** Where `a + b + c` occurs, `b` occurs `|a|` further on. */
  lemma OccursInside(s: string, a: string, b: string, c: string, i: int)
    requires OccursAt(s, a + b + c, i)
    ensures OccursAt(s, b, i + |a|)
  {
    forall k | 0 <= k < |b| ensures s[i + |a| + k] == b[k] {
      assert s[i + |a| + k] == s[i..i + |a + b + c|][|a| + k] == (a + b + c)[|a| + k];
    }
  }

  /** A one-character pattern occurs exactly where that character is. */
  lemma CharAt(s: string, c: char)
    ensures forall j :: OccursAt(s, [c], j) <==> 0 <= j < |s| && s[j] == c
  {
    forall j | OccursAt(s, [c], j) ensures s[j] == c {
      assert s[j] == s[j..j + 1][0];
    }
    forall j | 0 <= j < |s| && s[j] == c ensures OccursAt(s, [c], j) {
      assert s[j..j + 1] == [s[j]];
    }
  }

  /** A pattern that does not occur in `s` does not occur in `[c] + s` either when it does not start with `c`. */
  lemma NoOccurrenceAfter(c: char, s: string, p: string)
    requires |p| > 0 && p[0] != c
    requires forall i :: !OccursAt(s, p, i)
    ensures forall i :: !OccursAt([c] + s, p, i)
  {
    var t := [c] + s;
    forall i ensures !OccursAt(t, p, i) {
      if 0 <= i && i + |p| <= |t| {
        if i == 0 {
          assert t[i..i + |p|][0] == c;
        } else {
          assert t[i..i + |p|] == s[i - 1..i - 1 + |p|];
          assert !OccursAt(s, p, i - 1);
        }
      }
    }
  }

  /** `s.startswith(p)`. */
  predicate StartsWith(s: string, p: string)
  {
    |p| <= |s| && s[..|p|] == p
  }

  /** Python's index normalisation for slices: negative indices count from the end, then clamp to `0..n`. */
  function SliceIndex(i: int, n: nat): (r: nat)
    ensures r <= n
    ensures 0 <= i <= n ==> r == i
    ensures i < 0 && i + n >= 0 ==> r == n + i
  {
    if i < 0 then (if i + n < 0 then 0 else i + n)
    else if i > n then n
    else i
  }

  /** `s[i:j]` with Python's slice semantics. */
  function Slice(s: string, i: int, j: int): (r: string)
    ensures |r| <= |s|
  {
    var a, b := SliceIndex(i, |s|), SliceIndex(j, |s|);
    if a < b then s[a..b] else []
  }

  // ---------------------------------------------------------------------------
  // Replacement
  // ---------------------------------------------------------------------------

  /** `s.replace(pat, rep)` for a non-empty pattern: every non-overlapping occurrence, scanned left to right. */
  function Replace(s: string, pat: string, rep: string): (r: string)
    requires pat != []
    ensures (forall i :: !OccursAt(s, pat, i)) ==> r == s
    decreases |s|
  {
    if |s| < |pat| then s
    else if s[..|pat|] == pat then
      assert OccursAt(s, pat, 0);
      rep + Replace(s[|pat|..], pat, rep)
    else
      var r := [s[0]] + Replace(s[1..], pat, rep);
      assert (forall i :: !OccursAt(s, pat, i)) ==> forall i :: !OccursAt(s[1..], pat, i) by {
        forall i | OccursAt(s[1..], pat, i) ensures OccursAt(s, pat, i + 1) {
          assert s[i + 1..i + 1 + |pat|] == s[1..][i..i + |pat|];
        }
      }
      r
  }

  /** A text that starts with the pattern starts its replacement with the replacement text. */
  lemma ReplaceLeading(p: string, rest: string, rep: string)
    requires p != []
    ensures StartsWith(p + rest, p)
    ensures Replace(p + rest, p, rep) == rep + Replace(rest, p, rep)
  {
    var s := p + rest;
    assert s[..|p|] == p;
    assert s[|p|..] == rest;
  }

  /** Replacing one character by another keeps the length and changes exactly that character. */
  lemma {:induction false} ReplaceChar(s: string, a: char, b: char)
    ensures |Replace(s, [a], [b])| == |s|
    ensures forall i :: 0 <= i < |s| ==> Replace(s, [a], [b])[i] == (if s[i] == a then b else s[i])
  {
    if |s| > 0 {
      ReplaceChar(s[1..], a, b);
      assert s[..1] == [s[0]];
    }
  }

  /** Replacing a character by nothing removes every copy of it and keeps every other character. */
  lemma {:induction false} RemoveChar(s: string, c: char)
    ensures c !in Replace(s, [c], [])
    ensures forall x :: x != c ==> (x in Replace(s, [c], []) <==> x in s)
    ensures |Replace(s, [c], [])| <= |s|
    ensures c !in s ==> Replace(s, [c], []) == s
  {
    if |s| > 0 {
      RemoveChar(s[1..], c);
      assert s[..1] == [s[0]];
      assert s == [s[0]] + s[1..];
    }
  }

  /** The characters of `s` other than `c`, in their order and with their repetitions. */
  function Without(s: string, c: char): string
  {
    if s == [] then [] else (if s[0] == c then [] else [s[0]]) + Without(s[1..], c)
  }

  /** Replacing a character by nothing keeps every other character, in order and with its repetitions. */
  lemma {:induction false} RemoveCharInOrder(s: string, c: char)
    ensures Replace(s, [c], []) == Without(s, c)
  {
    if |s| > 0 {
      RemoveCharInOrder(s[1..], c);
      assert s[..1] == [s[0]];
    }
  }

  /** Taking a character out of a concatenation takes it out of each part. */
  lemma {:induction false} WithoutAppend(a: string, b: string, c: char)
    ensures Without(a + b, c) == Without(a, c) + Without(b, c)
  {
    if a != [] {
      WithoutAppend(a[1..], b, c);
      assert (a + b)[0] == a[0];
      assert (a + b)[1..] == a[1..] + b;
    } else {
      assert a + b == b;
    }
  }

  /** Taking a character out of two texts joined by it joins what is left of them. */
  lemma WithoutJoins(a: string, b: string, c: char)
    ensures Without(a + [c] + b, c) == Without(a, c) + Without(b, c)
  {
    var x := a + [c];
    assert Without([c], c) == [] by {
      assert [c][1..] == [];
    }
    WithoutAppend(a, [c], c);
    assert Without(x, c) == Without(a, c);
    WithoutAppend(x, b, c);
  }

  // ---------------------------------------------------------------------------
  // Whitespace and case
  // ---------------------------------------------------------------------------

  /** `c.isspace()`: the characters Python's `str.strip()` and the regex `\s` treat as whitespace. */
  predicate IsSpace(c: char)
  {
    || c == ' '
    || ('\t' <= c <= '\r')
    || ('\U{1C}' <= c <= '\U{1F}')
    || c == '\U{85}' || c == '\U{A0}' || c == '\U{1680}'
    || ('\U{2000}' <= c <= '\U{200A}')
    || c == '\U{2028}' || c == '\U{2029}' || c == '\U{202F}' || c == '\U{205F}' || c == '\U{3000}'
  }

  /** `s.lstrip()`. */
  function LStrip(s: string): (r: string)
    ensures |r| <= |s| && r == s[|s| - |r|..]
    ensures r == [] || !IsSpace(r[0])
    ensures forall i :: 0 <= i < |s| - |r| ==> IsSpace(s[i])
  {
    if |s| > 0 && IsSpace(s[0]) then LStrip(s[1..]) else s
  }

  /** `s.rstrip()`. */
  function RStrip(s: string): (r: string)
    ensures |r| <= |s| && r == s[..|r|]
    ensures r == [] || !IsSpace(r[|r| - 1])
    ensures forall i :: |r| <= i < |s| ==> IsSpace(s[i])
  {
    if |s| > 0 && IsSpace(s[|s| - 1]) then RStrip(s[..|s| - 1]) else s
  }

  /** `s.strip()`. */
  function Strip(s: string): string
  {
    RStrip(LStrip(s))
  }

  /** Left-stripping removes exactly a leading run of whitespace. */
  lemma {:induction false} LStripRun(w: string, rest: string)
    requires forall i :: 0 <= i < |w| ==> IsSpace(w[i])
    requires rest == [] || !IsSpace(rest[0])
    ensures LStrip(w + rest) == rest
  {
    if w == [] {
      assert w + rest == rest;
    } else {
      var s := w + rest;
      assert s[0] == w[0];
      assert s[1..] == w[1..] + rest;
      LStripRun(w[1..], rest);
    }
  }

  /** Right-stripping removes exactly a trailing run of whitespace. */
  lemma {:induction false} RStripRun(core: string, w: string)
    requires forall i :: 0 <= i < |w| ==> IsSpace(w[i])
    requires core == [] || !IsSpace(core[|core| - 1])
    ensures RStrip(core + w) == core
    decreases |w|
  {
    if w == [] {
      assert core + w == core;
    } else {
      var s := core + w;
      var v := w[..|w| - 1];
      assert s[|s| - 1] == w[|w| - 1];
      assert s[..|s| - 1] == core + v;
      RStripRun(core, v);
    }
  }

  /** A text between two runs of whitespace strips to itself. */
  lemma StripFramed(a: string, m: string, b: string)
    requires forall i :: 0 <= i < |a| ==> IsSpace(a[i])
    requires forall i :: 0 <= i < |b| ==> IsSpace(b[i])
    requires |m| > 0 && !IsSpace(m[0]) && !IsSpace(m[|m| - 1])
    ensures Strip(a + m + b) == m
  {
    assert a + m + b == a + (m + b);
    assert (m + b)[0] == m[0];
    LStripRun(a, m + b);
    RStripRun(m, b);
  }

  /** ASCII lower-casing of one character. */
  function LowerChar(c: char): char
  {
    if 'A' <= c <= 'Z' then (c as int + 32) as char else c
  }

  /** `s.lower()`, restricted to ASCII letters. */
  function Lower(s: string): (r: string)
    ensures |r| == |s|
    ensures forall i :: 0 <= i < |s| ==> r[i] == LowerChar(s[i])
  {
    if s == [] then [] else [LowerChar(s[0])] + Lower(s[1..])
  }
}
