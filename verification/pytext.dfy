/** The parts of Python's `str` behaviour the core relies on: truthiness of
    optional strings, `strip()`, `lstrip(c)` and `rstrip(c)`. */
module PyText {
  import opened Wrappers

  /** Python's `str.isspace()` for a single character: the ASCII controls
      TAB..CR and FS..US, the space, and the Unicode space separators. */
  predicate IsSpace(c: char) {
    || c == ' '
    || ('\t' <= c <= '\r')
    || ('\U{1C}' <= c <= '\U{1F}')
    || c == '\U{85}' || c == '\U{A0}' || c == '\U{1680}'
    || ('\U{2000}' <= c <= '\U{200A}')
    || c == '\U{2028}' || c == '\U{2029}' || c == '\U{202F}' || c == '\U{205F}' || c == '\U{3000}'
  }

  predicate IsSlash(c: char) {
    c == '/'
  }

  /** `x or default` for an optional string: `None` and `""` are falsy. */
  function OrElse(x: Option<string>, default: string): (s: string)
    ensures x.Some? && x.value != "" ==> s == x.value
    ensures x.None? || x.value == "" ==> s == default
  {
    if x.Some? && x.value != "" then x.value else default
  }

  /** Python truthiness of an optional string. */
  predicate Truthy(x: Option<string>) {
    x.Some? && x.value != ""
  }

  /** Drops the longest prefix of characters satisfying `drop`
      (`lstrip`). */
  function TrimLeft(s: string, drop: char -> bool): (r: string)
    ensures |r| <= |s|
    decreases |s|
  {
    if s != [] && drop(s[0]) then TrimLeft(s[1..], drop) else s
  }

  /** `TrimLeft` keeps a suffix, everything before it is droppable, and the
      suffix does not start with a droppable character. */
  lemma {:induction false} TrimLeftSpec(s: string, drop: char -> bool)
    ensures var r := TrimLeft(s, drop);
            && r == s[|s| - |r|..]
            && (forall i :: 0 <= i < |s| - |r| ==> drop(s[i]))
            && (r == [] || !drop(r[0]))
    decreases |s|
  {
    if s != [] && drop(s[0]) {
      TrimLeftSpec(s[1..], drop);
    }
  }

  /** Drops the longest suffix of characters satisfying `drop`
      (`rstrip`). */
  function TrimRight(s: string, drop: char -> bool): (r: string)
    ensures |r| <= |s|
    decreases |s|
  {
    if s != [] && drop(s[|s| - 1]) then TrimRight(s[..|s| - 1], drop) else s
  }

  /** `TrimRight` keeps a prefix, everything after it is droppable, and the
      prefix does not end with a droppable character. */
  lemma {:induction false} TrimRightSpec(s: string, drop: char -> bool)
    ensures var r := TrimRight(s, drop);
            && r == s[..|r|]
            && (forall i :: |r| <= i < |s| ==> drop(s[i]))
            && (r == [] || !drop(r[|r| - 1]))
    decreases |s|
  {
    if s != [] && drop(s[|s| - 1]) {
      TrimRightSpec(s[..|s| - 1], drop);
    }
  }

  /** No whitespace at either end. */
  predicate Trimmed(s: string) {
    s == [] || (!IsSpace(s[0]) && !IsSpace(s[|s| - 1]))
  }

  /** `r` is the slice `s[k..k+|r|]` and everything around it is
      whitespace. */
  predicate StripsTo(s: string, k: int, r: string) {
    && 0 <= k <= k + |r| <= |s|
    && r == s[k..k + |r|]
    && (forall i :: 0 <= i < k ==> IsSpace(s[i]))
    && (forall i :: k + |r| <= i < |s| ==> IsSpace(s[i]))
  }

  /** Python's `str.strip()` with no argument. */
  function Strip(s: string): (r: string)
    ensures |r| <= |s|
  {
    TrimLeftSpec(s, IsSpace);
    TrimRightSpec(TrimLeft(s, IsSpace), IsSpace);
    TrimRight(TrimLeft(s, IsSpace), IsSpace)
  }

  /** What `strip()` returns has no whitespace at either end. */
  lemma StripIsTrimmed(s: string)
    ensures Trimmed(Strip(s))
  {
    TrimLeftSpec(s, IsSpace);
    TrimRightSpec(TrimLeft(s, IsSpace), IsSpace);
  }

  /** A string without whitespace at its ends is left as it is. */
  lemma StripTrimmed(s: string)
    requires Trimmed(s)
    ensures Strip(s) == s
  {
    if s != [] {
      assert TrimLeft(s, IsSpace) == s;
      assert TrimRight(s, IsSpace) == s;
    }
  }

  /** What `strip()` removes is whitespace, and only from the two ends. */
  lemma StripSlice(s: string)
    ensures exists k :: StripsTo(s, k, Strip(s))
  {
    var l := TrimLeft(s, IsSpace);
    TrimLeftSpec(s, IsSpace);
    TrimRightSpec(l, IsSpace);
    assert StripsTo(s, |s| - |l|, Strip(s));
  }

  /** `strip()` is `lstrip()` followed by `rstrip()`. */
  lemma StripIsTrims(s: string)
    ensures Strip(s) == TrimRight(TrimLeft(s, IsSpace), IsSpace)
  {
  }

  /** One trailing space makes no difference to `strip()`. */
  lemma StripTrailingSpace(s: string)
    ensures Strip(s + " ") == Strip(s)
  {
    StripIsTrims(s + " ");
    StripIsTrims(s);
    if i :| 0 <= i < |s| && !IsSpace(s[i]) {
      TrimsWithTrailingSpace(s, i);
    } else {
      BlankTrimsAway(s);
    }
  }

  lemma TrimsWithTrailingSpace(s: string, i: int)
    requires 0 <= i < |s| && !IsSpace(s[i])
    ensures TrimRight(TrimLeft(s + " ", IsSpace), IsSpace) == TrimRight(TrimLeft(s, IsSpace), IsSpace)
  {
    TrimLeftAppend(s, " ", IsSpace);
    TrimRightDropSuffix(TrimLeft(s, IsSpace), " ", IsSpace);
  }

  lemma BlankTrimsAway(s: string)
    requires forall i :: 0 <= i < |s| ==> IsSpace(s[i])
    ensures TrimLeft(s + " ", IsSpace) == [] && TrimLeft(s, IsSpace) == []
  {
    TrimLeftAllDropped(s, " ", IsSpace);
    TrimLeftAllDropped(s, "", IsSpace);
    assert s + "" == s;
  }

  /** A whitespace-only string strips to the empty string. */
  lemma StripBlank(s: string)
    requires forall i :: 0 <= i < |s| ==> IsSpace(s[i])
    ensures Strip(s) == ""
  {
    StripSlice(s);
    StripIsTrimmed(s);
  }

  /** Stripping twice is stripping once. */
  lemma StripIdempotent(s: string)
    ensures Strip(Strip(s)) == Strip(s)
  {
    StripIsTrimmed(s);
    StripTrimmed(Strip(s));
  }

  /** Appending characters after a kept character does not change how
      much `TrimLeft` removes. */
  lemma {:induction false} TrimLeftAppend(a: string, b: string, drop: char -> bool)
    requires exists i :: 0 <= i < |a| && !drop(a[i])
    ensures TrimLeft(a + b, drop) == TrimLeft(a, drop) + b
    decreases |a|
  {
    if drop(a[0]) {
      assert (a + b)[1..] == a[1..] + b;
      var i :| 0 <= i < |a| && !drop(a[i]);
      assert 0 <= i - 1 < |a[1..]| && !drop(a[1..][i - 1]);
      TrimLeftAppend(a[1..], b, drop);
    }
  }

  /** Appending only droppable characters does not change what
      `TrimRight` keeps. */
  lemma {:induction false} TrimRightDropSuffix(a: string, b: string, drop: char -> bool)
    requires forall i :: 0 <= i < |b| ==> drop(b[i])
    ensures TrimRight(a + b, drop) == TrimRight(a, drop)
    decreases |b|
  {
    if b != [] {
      assert (a + b)[..|a + b| - 1] == a + b[..|b| - 1];
      TrimRightDropSuffix(a, b[..|b| - 1], drop);
    } else {
      assert a + b == a;
    }
  }

  /** If every character of `a` is droppable, `TrimLeft` removes all of it. */
  lemma {:induction false} TrimLeftAllDropped(a: string, b: string, drop: char -> bool)
    requires forall i :: 0 <= i < |a| ==> drop(a[i])
    ensures TrimLeft(a + b, drop) == TrimLeft(b, drop)
    decreases |a|
  {
    if a != [] {
      assert (a + b)[1..] == a[1..] + b;
      TrimLeftAllDropped(a[1..], b, drop);
    } else {
      assert a + b == b;
    }
  }
}
