/** The Python built-ins the nutrition code leans on: its exceptions, round(), and the
    ASCII behaviour of str.lower, str.strip, str.split, str.join, str.isnumeric and the
    substring test `a in b`. */
module PyCore {

  /** The exceptions raised by the modelled code.  Messages are the ones the source
      writes (or Python writes, for the built-in failures).  A KeyError carries its
      argument: the missing key for a failed subscript, the message for an explicit
      `raise KeyError(...)`. */
  datatype Error =
    | ValueError(message: string)
    | KeyError(arg: string)
    | TypeError(message: string)
    | AttributeError(message: string)
    | ZeroDivisionError

  datatype Option<+T> = None | Some(value: T)

  /** A value, or the exception that was raised instead. */
  datatype Result<+T> = Ok(value: T) | Err(error: Error)

  /** What a procedure that returns nothing ends with: normally, or by raising. */
  datatype Outcome = Done | Raised(error: Error)

  // ---------------------------------------------------------------------------------
  // round(x, d)
  // ---------------------------------------------------------------------------------

  function Pow10(d: nat): (p: real)
    ensures p >= 1.0
  {
    if d == 0 then 1.0 else 10.0 * Pow10(d - 1)
  }

  /** Rounding to the nearest multiple of 1/scale, halves up. */
  function RoundTo(x: real, scale: real): real
    requires scale > 0.0
  {
    (x * scale + 0.5).Floor as real / scale
  }

  /** round(x, d) with halves rounded up.  Python rounds halves to even on binary
      floats; the bounds the lemmas below state (within half a unit, inclusive at both
      ends, monotone, exact on d-decimal numbers) hold whichever way a half goes. */
  function Round(x: real, d: nat): real
  {
    RoundTo(x, Pow10(d))
  }

  lemma MulMonotone(a: real, b: real, p: real)
    requires a <= b && p > 0.0
    ensures a * p <= b * p
  {
  }

  lemma DivMonotone(a: real, b: real, p: real)
    requires a <= b && p > 0.0
    ensures a / p <= b / p
  {
  }

  lemma DivOfSum(a: real, b: real, p: real)
    requires p != 0.0
    ensures (a + b) / p == a / p + b / p
  {
  }

  lemma MulThenDiv(a: real, p: real)
    requires p != 0.0
    ensures (a * p) / p == a
  {
  }

  lemma DivThenMul(a: real, p: real)
    requires p != 0.0
    ensures (a / p) * p == a
  {
  }

  lemma RoundToIsNear(x: real, scale: real)
    requires scale > 0.0
    ensures x - 0.5 / scale <= RoundTo(x, scale) <= x + 0.5 / scale
  {
    var f := (x * scale + 0.5).Floor as real;
    assert x * scale - 0.5 < f <= x * scale + 0.5;
    DivMonotone(f, x * scale + 0.5, scale);
    DivMonotone(x * scale - 0.5, f, scale);
    DivOfSum(x * scale, 0.5, scale);
    DivOfSum(x * scale, -0.5, scale);
    MulThenDiv(x, scale);
  }

  lemma RoundToMonotone(x: real, y: real, scale: real)
    requires x <= y && scale > 0.0
    ensures RoundTo(x, scale) <= RoundTo(y, scale)
  {
    MulMonotone(x, y, scale);
    var fx := (x * scale + 0.5).Floor;
    var fy := (y * scale + 0.5).Floor;
    assert fx <= fy;
    DivMonotone(fx as real, fy as real, scale);
  }

  lemma RoundToOfMultiple(x: real, n: int, scale: real)
    requires scale > 0.0 && x * scale == n as real
    ensures RoundTo(x, scale) == x
  {
    assert (x * scale + 0.5).Floor == n;
    MulThenDiv(x, scale);
  }

  /** round(x, d) is within half a unit of the d-th decimal of x. */
  lemma RoundIsNear(x: real, d: nat)
    ensures x - 0.5 / Pow10(d) <= Round(x, d) <= x + 0.5 / Pow10(d)
  {
    RoundToIsNear(x, Pow10(d));
  }

  /** round is monotone. */
  lemma RoundMonotone(x: real, y: real, d: nat)
    requires x <= y
    ensures Round(x, d) <= Round(y, d)
  {
    RoundToMonotone(x, y, Pow10(d));
  }

  /** A number that already has at most d decimals is left alone. */
  lemma RoundOfDecimal(n: int, d: nat)
    ensures Round(n as real / Pow10(d), d) == n as real / Pow10(d)
  {
    DivThenMul(n as real, Pow10(d));
    RoundToOfMultiple(n as real / Pow10(d), n, Pow10(d));
  }

  // ---------------------------------------------------------------------------------
  // Characters and strings (ASCII behaviour of the str methods)
  // ---------------------------------------------------------------------------------

  /** The ASCII characters str.split() and str.strip() treat as whitespace. */
  predicate IsSpace(c: char)
  {
    c == ' ' || c == '\t' || c == '\n' || c == '\r' || c == '\U{0B}' || c == '\U{0C}'
    || c == '\U{1C}' || c == '\U{1D}' || c == '\U{1E}' || c == '\U{1F}'
  }

  predicate NoSpace(s: string)
  {
    forall i :: 0 <= i < |s| ==> !IsSpace(s[i])
  }

  function LowerChar(c: char): (r: char)
    ensures IsSpace(r) == IsSpace(c)
  {
    if 'A' <= c <= 'Z' then (c as int + 32) as char else c
  }

  /** str.lower() on ASCII letters. */
  function Lower(s: string): (r: string)
    ensures |r| == |s|
    ensures forall i :: 0 <= i < |s| ==> r[i] == LowerChar(s[i])
  {
    seq(|s|, i requires 0 <= i < |s| => LowerChar(s[i]))
  }

  lemma LowerConcat(a: string, b: string)
    ensures Lower(a + b) == Lower(a) + Lower(b)
  {
    assert forall i :: 0 <= i < |a + b| ==> Lower(a + b)[i] == (Lower(a) + Lower(b))[i];
  }

  lemma LowerIdempotent(s: string)
    ensures Lower(Lower(s)) == Lower(s)
  {
    assert forall i :: 0 <= i < |s| ==> Lower(Lower(s))[i] == Lower(s)[i];
  }

  function LStrip(s: string): (r: string)
    ensures |r| <= |s| && r == s[|s| - |r|..]
    ensures r == [] || !IsSpace(r[0])
  {
    if |s| > 0 && IsSpace(s[0]) then LStrip(s[1..]) else s
  }

  function RStrip(s: string): (r: string)
    ensures |r| <= |s| && r == s[..|r|]
    ensures r == [] || !IsSpace(r[|r| - 1])
  {
    if |s| > 0 && IsSpace(s[|s| - 1]) then RStrip(s[..|s| - 1]) else s
  }

  /** str.strip() with no argument. */
  function Strip(s: string): string
  {
    RStrip(LStrip(s))
  }

  /** A string that neither starts nor ends with whitespace. */
  predicate IsTrimmed(s: string)
  {
    s == [] || (!IsSpace(s[0]) && !IsSpace(s[|s| - 1]))
  }

  /** strip() leaves no whitespace at either end. */
  lemma {:induction false} StripTrims(s: string)
    ensures IsTrimmed(Strip(s))
  {
    var l := LStrip(s);
    var r := RStrip(l);
    if r != [] {
      assert r[0] == l[0];
    }
  }

  /** strip() is idempotent. */
  lemma StripIdempotent(s: string)
    ensures Strip(Strip(s)) == Strip(s)
  {
    StripTrims(s);
  }

  /** The longest prefix of s without whitespace. */
  function Word(s: string): (w: string)
    ensures |w| <= |s| && w == s[..|w|] && NoSpace(w)
    ensures |w| < |s| ==> IsSpace(s[|w|])
  {
    if s == [] || IsSpace(s[0]) then [] else [s[0]] + Word(s[1..])
  }

  /** str.split() with no argument: the maximal runs of non-whitespace characters. */
  function Split(s: string): (r: seq<string>)
    ensures forall k :: 0 <= k < |r| ==> r[k] != [] && NoSpace(r[k])
    decreases |s|
  {
    if s == [] then []
    else if IsSpace(s[0]) then Split(s[1..])
    else
      var w := Word(s);
      [w] + Split(s[|w|..])
  }

  /** Every token followed by one space, concatenated (the `filteredText += val + " "`
      loop of the tokenizer). */
  function SpaceTerminated(ts: seq<string>): (r: string)
    ensures |r| >= |ts|
  {
    if ts == [] then [] else ts[0] + " " + SpaceTerminated(ts[1..])
  }

  lemma WordOfTokenThenSpace(t: string, rest: string)
    requires t != [] && NoSpace(t)
    ensures Word(t + " " + rest) == t
  {
    if |t| > 1 {
      assert (t + " " + rest)[1..] == t[1..] + " " + rest;
      WordOfTokenThenSpace(t[1..], rest);
    } else {
      assert (t + " " + rest)[1..] == " " + rest;
    }
  }

  /** Splitting a space-terminated token list gives the tokens back. */
  lemma {:induction false} SplitSpaceTerminated(ts: seq<string>)
    requires forall k :: 0 <= k < |ts| ==> ts[k] != [] && NoSpace(ts[k])
    ensures Split(SpaceTerminated(ts)) == ts
  {
    if ts != [] {
      var rest := SpaceTerminated(ts[1..]);
      var s := ts[0] + " " + rest;
      WordOfTokenThenSpace(ts[0], rest);
      assert s[|ts[0]|..] == " " + rest;
      assert (" " + rest)[1..] == rest;
      SplitSpaceTerminated(ts[1..]);
    }
  }

  lemma {:induction false} LowerSpaceTerminated(ts: seq<string>)
    requires forall k :: 0 <= k < |ts| ==> Lower(ts[k]) == ts[k]
    ensures Lower(SpaceTerminated(ts)) == SpaceTerminated(ts)
  {
    if ts != [] {
      LowerSpaceTerminated(ts[1..]);
      LowerConcat(ts[0] + " ", SpaceTerminated(ts[1..]));
      LowerConcat(ts[0], " ");
    }
  }

  /** The tokens of a lower-cased text are lower-cased. */
  lemma {:induction false} SplitOfLowerIsLower(s: string)
    ensures forall k :: 0 <= k < |Split(Lower(s))| ==> Lower(Split(Lower(s))[k]) == Split(Lower(s))[k]
  {
    LowerIdempotent(s);
    forall k | 0 <= k < |Split(Lower(s))|
      ensures Lower(Split(Lower(s))[k]) == Split(Lower(s))[k]
    {
      SplitTokensOfLowered(Lower(s), k);
    }
  }

  lemma {:induction false} SplitTokensOfLowered(s: string, k: nat)
    requires Lower(s) == s
    requires k < |Split(s)|
    ensures Lower(Split(s)[k]) == Split(s)[k]
    decreases |s|
  {
    if IsSpace(s[0]) {
      assert Lower(s[1..]) == s[1..] by {
        assert forall i :: 0 <= i < |s| - 1 ==> Lower(s[1..])[i] == Lower(s)[i + 1];
      }
      SplitTokensOfLowered(s[1..], k);
    } else {
      var w := Word(s);
      if k == 0 {
        assert Split(s)[0] == w;
        assert forall i :: 0 <= i < |w| ==> Lower(w)[i] == Lower(s)[i];
      } else {
        assert Lower(s[|w|..]) == s[|w|..] by {
          assert forall i :: 0 <= i < |s| - |w| ==> Lower(s[|w|..])[i] == Lower(s)[i + |w|];
        }
        SplitTokensOfLowered(s[|w|..], k - 1);
      }
    }
  }

  /** sep.join(parts) */
  function Join(sep: string, parts: seq<string>): string
  {
    if parts == [] then []
    else if |parts| == 1 then parts[0]
    else parts[0] + sep + Join(sep, parts[1..])
  }

  /** A joined text begins with its first part. */
  lemma JoinStartsWithFirst(sep: string, parts: seq<string>)
    requires parts != []
    ensures |parts[0]| <= |Join(sep, parts)| && Join(sep, parts)[..|parts[0]|] == parts[0]
  {
  }

  /** A joined text ends with its last part. */
  lemma {:induction false} JoinEndsWithLast(sep: string, parts: seq<string>)
    requires parts != []
    ensures var j, l := Join(sep, parts), parts[|parts| - 1];
      |l| <= |j| && j[|j| - |l|..] == l
  {
    if |parts| > 1 {
      JoinEndsWithLast(sep, parts[1..]);
    }
  }

  /** Joining one more part appends the separator and that part. */
  lemma {:induction false} JoinSnoc(sep: string, parts: seq<string>, p: string)
    requires parts != []
    ensures Join(sep, parts + [p]) == Join(sep, parts) + sep + p
  {
    if |parts| == 1 {
      assert parts + [p] == [parts[0], p];
    } else {
      assert (parts + [p])[1..] == parts[1..] + [p];
      JoinSnoc(sep, parts[1..], p);
    }
  }

  /** str.startswith */
  predicate StartsWith(s: string, prefix: string)
  {
    |prefix| <= |s| && s[..|prefix|] == prefix
  }

  /** `sub in s` for strings. */
  predicate Contains(s: string, sub: string)
    decreases |s|
  {
    StartsWith(s, sub) || (s != [] && Contains(s[1..], sub))
  }

  /** An occurrence of sub at any position makes the substring test true. */
  lemma {:induction false} OccurrenceIsContained(s: string, sub: string, i: nat)
    requires i + |sub| <= |s| && s[i..i + |sub|] == sub
    ensures Contains(s, sub)
    decreases i
  {
    if i > 0 {
      assert s[1..][i - 1..i - 1 + |sub|] == sub;
      OccurrenceIsContained(s[1..], sub, i - 1);
    }
  }

  /** The substring test holds only when sub occurs at some position, returned as i. */
  lemma {:induction false} ContainedOccurs(s: string, sub: string) returns (i: nat)
    requires Contains(s, sub)
    ensures i + |sub| <= |s| && s[i..i + |sub|] == sub
    decreases |s|
  {
    if StartsWith(s, sub) {
      i := 0;
    } else {
      var j := ContainedOccurs(s[1..], sub);
      assert s[1..][j..j + |sub|] == s[j + 1..j + 1 + |sub|];
      i := j + 1;
    }
  }

  /** n copies of c. */
  function Repeat(c: char, n: nat): (r: string)
    ensures |r| == n && forall i :: 0 <= i < n ==> r[i] == c
  {
    if n == 0 then [] else [c] + Repeat(c, n - 1)
  }

  /** format(s, ">w"): right-aligned in a field of w characters. */
  function AlignRight(s: string, w: nat): (r: string)
    ensures |r| == if |s| < w then w else |s|
    ensures r[|r| - |s|..] == s
  {
    if |s| < w then Repeat(' ', w - |s|) + s else s
  }

  /** format(s, "<w"): left-aligned in a field of w characters. */
  function AlignLeft(s: string, w: nat): (r: string)
    ensures |r| == if |s| < w then w else |s|
    ensures r[..|s|] == s
  {
    if |s| < w then s + Repeat(' ', w - |s|) else s
  }

  /** s.replace(c, rep) for a one-character pattern. */
  function ReplaceChar(s: string, c: char, rep: string): (r: string)
  {
    if s == [] then []
    else (if s[0] == c then rep else [s[0]]) + ReplaceChar(s[1..], c, rep)
  }

  /** A replacement without c leaves no c behind. */
  lemma {:induction false} ReplaceCharRemoves(s: string, c: char, rep: string)
    requires c !in rep
    ensures c !in ReplaceChar(s, c, rep)
  {
    if s != [] {
      ReplaceCharRemoves(s[1..], c, rep);
    }
  }

  predicate IsDigit(c: char)
  {
    '0' <= c <= '9'
  }

  /** str.isnumeric() on ASCII: non-empty and all digits. */
  predicate IsNumeric(s: string)
  {
    |s| > 0 && forall i :: 0 <= i < |s| ==> IsDigit(s[i])
  }
}
