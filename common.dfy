/**
 * Shared vocabulary: an Option type for the nullable fields of the program's
 * records, and the handful of JavaScript string operations the handlers rely
 * on (truthiness, `includes`, `toLowerCase`, `trim`, `split('.').pop()`,
 * number-to-string).
 */
module Common {

  datatype Option<T> = None | Some(value: T)

  /** A validation verdict: the accepted value, or the message shown to the user. */
  datatype Result<T> = Ok(value: T) | Err(error: string)

  /**
   * A thrown value: an `Error` instance with its message, or any other value,
   * which may still carry a `message` property.
   */
  datatype Thrown = ErrorThrown(message: string) | OtherThrown(messageProperty: Option<string>)

  /** What an awaited storage or database call reports: success, or the error it raised. */
  datatype Outcome = Done | Failed(reason: string)

  /** `err.message || fallback` for the error of a failed call. */
  function ErrorText(o: Outcome, fallback: string): (r: string)
    requires o.Failed? && fallback != ""
    ensures r != ""
    ensures o.reason != "" ==> r == o.reason
  {
    OrElse(o.reason, fallback)
  }

  /** `s || fallback` on strings: the empty string is the only falsy string. */
  function OrElse(s: string, fallback: string): string
  {
    if s != "" then s else fallback
  }

  lemma OrElseTruthy(s: string, fallback: string)
    requires fallback != ""
    ensures OrElse(s, fallback) != ""
    ensures s != "" ==> OrElse(s, fallback) == s
  {
  }

  /** A nullable string is truthy when it is present and not empty. */
  predicate Present(s: Option<string>)
  {
    s.Some? && s.value != ""
  }

  // ---------------------------------------------------------------------------
  // `haystack.includes(needle)`
  // ---------------------------------------------------------------------------

  function Contains(haystack: string, needle: string): bool
    decreases |haystack|
  {
    if needle <= haystack then true
    else if haystack == [] then false
    else Contains(haystack[1..], needle)
  }

  /** `Contains` holds exactly when the needle occurs at some offset. */
  lemma {:induction false} ContainsIff(haystack: string, needle: string)
    ensures Contains(haystack, needle) <==>
            exists i :: 0 <= i <= |haystack| && needle <= haystack[i..]
    decreases |haystack|
  {
    if needle <= haystack {
      assert haystack[0..] == haystack;
    } else if haystack == [] {
    } else {
      ContainsIff(haystack[1..], needle);
      if exists i :: 0 <= i <= |haystack| && needle <= haystack[i..] {
        var i :| 0 <= i <= |haystack| && needle <= haystack[i..];
        assert i != 0 by { assert haystack[0..] == haystack; }
        assert haystack[1..][i - 1..] == haystack[i..];
      }
      forall i | 0 <= i <= |haystack| - 1 && needle <= haystack[1..][i..]
        ensures needle <= haystack[i + 1..]
      {
        assert haystack[1..][i..] == haystack[i + 1..];
      }
    }
  }

  /** A needle cannot occur in a text that lacks one of its characters. */
  lemma {:induction false} MissingCharMeansAbsent(haystack: string, needle: string, k: nat)
    requires k < |needle|
    requires needle[k] !in haystack
    ensures !Contains(haystack, needle)
    decreases |haystack|
  {
    if haystack != [] {
      assert forall c :: c in haystack[1..] ==> c in haystack;
      MissingCharMeansAbsent(haystack[1..], needle, k);
    }
  }

  /** Every occurrence inside a part is an occurrence inside the whole. */
  lemma {:induction false} ContainsInSuffix(prefix: string, rest: string, needle: string)
    requires Contains(rest, needle)
    ensures Contains(prefix + rest, needle)
    decreases |prefix|
  {
    if prefix == [] {
      assert prefix + rest == rest;
    } else if needle <= prefix + rest {
    } else {
      assert (prefix + rest)[1..] == prefix[1..] + rest;
      ContainsInSuffix(prefix[1..], rest, needle);
    }
  }

  lemma {:induction false} ContainsInPrefix(front: string, back: string, needle: string)
    requires Contains(front, needle)
    ensures Contains(front + back, needle)
    decreases |front|
  {
    if needle <= front {
      assert front <= front + back;
    } else {
      assert front != [];
      assert (front + back)[1..] == front[1..] + back;
      ContainsInPrefix(front[1..], back, needle);
    }
  }

  // ---------------------------------------------------------------------------
  // `toLowerCase()`, for the scripts the site serves (Latin, Cyrillic, Georgian)
  // ---------------------------------------------------------------------------

  function LowerChar(c: char): char
  {
    var n := c as int;
    if 'A' <= c <= 'Z' then (n + 32) as char
    else if 0xC0 <= n <= 0xDE && n != 0xD7 then (n + 32) as char         // Latin-1 capitals
    else if 0x410 <= n <= 0x42F then (n + 32) as char                    // Cyrillic А..Я
    else if 0x400 <= n <= 0x40F then (n + 80) as char                    // Cyrillic Ѐ..Џ
    else if 0x1C90 <= n <= 0x1CBA || 0x1CBD <= n <= 0x1CBF then (n - 0xBC0) as char   // Georgian Mtavruli
    else c
  }

  function ToLower(s: string): (r: string)
    ensures |r| == |s|
    ensures forall i :: 0 <= i < |s| ==> r[i] == LowerChar(s[i])
  {
    seq(|s|, i requires 0 <= i < |s| => LowerChar(s[i]))
  }

  /** Lowercasing twice is lowercasing once. */
  lemma ToLowerIdempotent(s: string)
    ensures ToLower(ToLower(s)) == ToLower(s)
  {
  }

  /** An occurrence survives lowercasing both texts: every `includes` is also a case-insensitive match. */
  lemma ContainsLowered(haystack: string, needle: string)
    requires Contains(haystack, needle)
    ensures Contains(ToLower(haystack), ToLower(needle))
  {
    ContainsIff(haystack, needle);
    var i :| 0 <= i <= |haystack| && needle <= haystack[i..];
    var h := ToLower(haystack);
    assert ToLower(needle) <= h[i..] by {
      forall k | 0 <= k < |needle| ensures ToLower(needle)[k] == h[i..][k] {
        assert needle[k] == haystack[i + k];
      }
    }
    ContainsIff(h, ToLower(needle));
  }

  lemma LowerCharIdempotent(c: char)
    ensures LowerChar(LowerChar(c)) == LowerChar(c)
  {
  }

  // ---------------------------------------------------------------------------
  // Whitespace as JavaScript's `\s` and `trim()` understand it
  // ---------------------------------------------------------------------------

  predicate IsSpace(c: char)
  {
    var n := c as int;
    n == 0x09 || n == 0x0A || n == 0x0B || n == 0x0C || n == 0x0D || n == 0x20 ||
    n == 0xA0 || n == 0x1680 || 0x2000 <= n <= 0x200A || n == 0x2028 || n == 0x2029 ||
    n == 0x202F || n == 0x205F || n == 0x3000 || n == 0xFEFF
  }

  function TrimStart(s: string): (r: string)
    ensures |r| <= |s| && r == s[|s| - |r|..]
    ensures r != [] ==> !IsSpace(r[0])
  {
    if s != [] && IsSpace(s[0]) then TrimStart(s[1..]) else s
  }

  function TrimEnd(s: string): (r: string)
    ensures r <= s
    ensures r != [] ==> !IsSpace(r[|r| - 1])
  {
    if s != [] && IsSpace(s[|s| - 1]) then TrimEnd(s[..|s| - 1]) else s
  }

  /** `r` is `s` from offset `i` on, with only whitespace cut off before and after it. */
  predicate TrimmedAt(s: string, r: string, i: int)
  {
    0 <= i <= |s| - |r| && r == s[i..i + |r|] &&
    (forall k | 0 <= k < i :: IsSpace(s[k])) && (forall k | i + |r| <= k < |s| :: IsSpace(s[k]))
  }

  /** `trim()`: the input with its leading and trailing whitespace cut off; its characters come from the input and neither end is whitespace. */
  function Trim(s: string): (r: string)
    ensures |r| <= |s|
    ensures forall i :: 0 <= i < |r| ==> r[i] in s
    ensures r != [] ==> !IsSpace(r[0]) && !IsSpace(r[|r| - 1])
  {
    var r := TrimEnd(TrimStart(s));
    SliceChars(s, TrimStart(s), r);
    r
  }

  /** `trimStart()` removes only whitespace. */
  lemma {:induction false} TrimStartDropsSpaces(s: string)
    ensures forall k | 0 <= k < |s| - |TrimStart(s)| :: IsSpace(s[k])
    decreases |s|
  {
    if s != [] && IsSpace(s[0]) {
      TrimStartDropsSpaces(s[1..]);
      forall k | 1 <= k < |s| - |TrimStart(s)| ensures IsSpace(s[k]) {
        assert s[k] == s[1..][k - 1];
      }
    }
  }

  /** `trimEnd()` removes only whitespace. */
  lemma {:induction false} TrimEndDropsSpaces(s: string)
    ensures forall k | |TrimEnd(s)| <= k < |s| :: IsSpace(s[k])
    decreases |s|
  {
    if s != [] && IsSpace(s[|s| - 1]) {
      TrimEndDropsSpaces(s[..|s| - 1]);
      forall k | |TrimEnd(s)| <= k < |s| - 1 ensures IsSpace(s[k]) {
        assert s[k] == s[..|s| - 1][k];
      }
    }
  }

  /** `trim()` gives a contiguous piece of the input with only whitespace around it, starting where `trimStart()` stops. */
  lemma TrimIsSlice(s: string)
    ensures TrimmedAt(s, Trim(s), |s| - |TrimStart(s)|)
  {
    var t := TrimStart(s);
    var r := TrimEnd(t);
    var i := |s| - |t|;
    assert t == s[i..];
    assert r == t[..|r|];
    assert s[i..i + |r|] == r by {
      assert s[i..i + |r|] == s[i..][..|r|];
    }
    TrimStartDropsSpaces(s);
    TrimEndDropsSpaces(t);
    forall k | i + |r| <= k < |s| ensures IsSpace(s[k]) {
      assert s[k] == t[k - i];
    }
    assert TrimmedAt(s, r, i);
    assert Trim(s) == r;
  }

  lemma SliceChars(s: string, t: string, r: string)
    requires |t| <= |s| && t == s[|s| - |t|..]
    requires r <= t
    ensures forall i :: 0 <= i < |r| ==> r[i] in s
  {
  }

  // ---------------------------------------------------------------------------
  // `split('.').pop()` and friends
  // ---------------------------------------------------------------------------

  /** Index of the last occurrence of `c`, if any. */
  function LastIndexOf(s: string, c: char): (r: Option<nat>)
    ensures r.None? <==> c !in s
    ensures r.Some? ==> r.value < |s| && s[r.value] == c && c !in s[r.value + 1..]
  {
    if s == [] then None
    else if s[|s| - 1] == c then Some(|s| - 1)
    else
      var r := LastIndexOf(s[..|s| - 1], c);
      assert s == s[..|s| - 1] + [s[|s| - 1]];
      if r.Some? then
        assert s[r.value + 1..] == s[..|s| - 1][r.value + 1..] + [s[|s| - 1]];
        r
      else r
  }

  /** `s.split(c).pop()`: the text after the last `c`, or all of `s` without one. */
  function AfterLast(s: string, c: char): (r: string)
    ensures c !in r
    ensures c !in s ==> r == s
    ensures c in s ==> |r| < |s| && s[|s| - |r| - 1] == c && r == s[|s| - |r|..]
  {
    match LastIndexOf(s, c)
    case None => s
    case Some(i) => s[i + 1..]
  }

  // ---------------------------------------------------------------------------
  // Decimal rendering of a non-negative number, as template literals do it
  // ---------------------------------------------------------------------------

  predicate IsDigit(c: char) { '0' <= c <= '9' }

  function DigitChar(d: nat): (c: char)
    requires d < 10
    ensures IsDigit(c)
  {
    ('0' as int + d) as char
  }

  function NatToString(n: nat): (r: string)
    ensures r != []
    ensures forall i :: 0 <= i < |r| ==> IsDigit(r[i])
    decreases n
  {
    if n < 10 then [DigitChar(n)] else NatToString(n / 10) + [DigitChar(n % 10)]
  }

  // ---------------------------------------------------------------------------
  // `Array.prototype.filter` and the order it keeps
  // ---------------------------------------------------------------------------

  /** `sub` is obtained from `xs` by deleting elements, keeping the rest in order. */
  predicate IsSubsequence<T(==)>(sub: seq<T>, xs: seq<T>)
    decreases |xs|
  {
    if sub == [] then true
    else if xs == [] then false
    else if sub[0] == xs[0] then IsSubsequence(sub[1..], xs[1..])
    else IsSubsequence(sub, xs[1..])
  }

  function Filter<T(==)>(xs: seq<T>, keep: T -> bool): (r: seq<T>)
    ensures |r| <= |xs|
    ensures forall i | 0 <= i < |r| :: r[i] in xs && keep(r[i])
    ensures forall i | 0 <= i < |xs| :: keep(xs[i]) ==> xs[i] in r
    decreases |xs|
  {
    if xs == [] then []
    else (if keep(xs[0]) then [xs[0]] else []) + Filter(xs[1..], keep)
  }

  /** The filtered list keeps the order of the original. */
  lemma {:induction false} FilterIsSubsequence<T>(xs: seq<T>, keep: T -> bool)
    ensures IsSubsequence(Filter(xs, keep), xs)
    decreases |xs|
  {
    if xs != [] {
      FilterIsSubsequence(xs[1..], keep);
      var r := Filter(xs, keep);
      if keep(xs[0]) {
        assert r[0] == xs[0] && r[1..] == Filter(xs[1..], keep);
      } else {
        assert r == Filter(xs[1..], keep);
      }
    }
  }

  /** A test every element passes keeps the list as it is. */
  lemma {:induction false} FilterKeepsAll<T>(xs: seq<T>, keep: T -> bool)
    requires forall x :: x in xs ==> keep(x)
    ensures Filter(xs, keep) == xs
    decreases |xs|
  {
    if xs != [] {
      assert forall x :: x in xs[1..] ==> x in xs;
      FilterKeepsAll(xs[1..], keep);
    }
  }

  /** A test and its negation split the list: the two counts add up to its length. */
  lemma {:induction false} FilterSplit<T>(xs: seq<T>, keep: T -> bool, drop: T -> bool)
    requires forall x :: drop(x) == !keep(x)
    ensures |Filter(xs, keep)| + |Filter(xs, drop)| == |xs|
    decreases |xs|
  {
    if xs != [] {
      FilterSplit(xs[1..], keep, drop);
    }
  }

  /** Filters in sequence are one filter on the conjunction. */
  lemma {:induction false} FilterTwice<T>(xs: seq<T>, p: T -> bool, q: T -> bool, both: T -> bool)
    requires forall x :: both(x) == (p(x) && q(x))
    ensures Filter(Filter(xs, p), q) == Filter(xs, both)
    decreases |xs|
  {
    if xs != [] {
      FilterTwice(xs[1..], p, q, both);
      var rest := Filter(xs[1..], p);
      if p(xs[0]) {
        assert Filter(xs, p) == [xs[0]] + rest;
        assert ([xs[0]] + rest)[1..] == rest;
      } else {
        assert Filter(xs, p) == rest;
      }
    }
  }

  /** `Array.prototype.findIndex`: the first position whose element passes the test. */
  function FindFirst<T>(xs: seq<T>, test: T -> bool): (r: Option<nat>)
    ensures r.None? <==> forall i | 0 <= i < |xs| :: !test(xs[i])
    ensures r.Some? ==> r.value < |xs| && test(xs[r.value]) &&
                        forall j | 0 <= j < r.value :: !test(xs[j])
    decreases |xs|
  {
    if xs == [] then None
    else if test(xs[0]) then Some(0)
    else
      match FindFirst(xs[1..], test)
      case None => None
      case Some(i) => Some(i + 1)
  }
}
