/** The string functions of Go's library that the model relies on. A string is a sequence of bytes,
    one character per byte; TrimSpace removes the UTF-8 encodings of white space at both ends. */
module Text {

  predicate HasPrefix(s: string, prefix: string) { prefix <= s }

  predicate Contains(s: string, sub: string) {
    exists i | 0 <= i <= |s| - |sub| :: s[i..][..|sub|] == sub
  }

  lemma ContainsIff(s: string, sub: string)
    ensures Contains(s, sub) <==> exists pre, post :: s == pre + sub + post
  {
    if Contains(s, sub) {
      var i :| 0 <= i <= |s| - |sub| && s[i..][..|sub|] == sub;
      var pre, post := s[..i], s[i + |sub|..];
      assert s == pre + s[i..][..|sub|] + post;
    }
    if pre, post :| s == pre + sub + post {
      assert s[|pre|..][..|sub|] == sub;
    }
  }

  function TrimPrefix(s: string, prefix: string): string {
    if prefix <= s then s[|prefix|..] else s
  }

  // ---- Sequences -------------------------------------------------------------------------------

  lemma DropEnd<T>(a: seq<T>, b: seq<T>, n: nat)
    requires n <= |b|
    ensures (a + b)[..|a + b| - n] == a + b[..|b| - n]
  {
  }

  lemma Regroup<T>(a: seq<T>, b: seq<T>, c: seq<T>)
    ensures (a + b) + c == a + (b + c)
  {
  }

  lemma HeadTail<T>(s: seq<T>)
    requires s != []
    ensures s == [s[0]] + s[1..]
  {
  }

  lemma TakeOneMore<T>(s: seq<T>, n: nat)
    requires n < |s|
    ensures s[..n + 1] == s[..n] + [s[n]]
  {
  }

  lemma TakeFurther<T>(s: seq<T>, m: nat, n: nat)
    requires m <= n <= |s|
    ensures s[..m] + s[m..n] == s[..n] && [] + s[m..n] == s[m..n]
  {
  }

  lemma DropFurther<T>(s: seq<T>, m: nat, n: nat)
    requires m + n <= |s|
    ensures s[m..][n..] == s[m + n..]
  {
  }

  lemma TakeAndDrop<T>(s: seq<T>, n: nat)
    requires n <= |s|
    ensures s == s[..n] + s[n..]
  {
  }

  lemma CutAt<T>(s: seq<T>, i: nat)
    requires i < |s|
    ensures s == s[..i] + [s[i]] + s[i + 1..]
  {
  }

  // ---- Splitting and joining -----------------------------------------------------------------------

  /** The first position of c, or |s|. */
  function IndexOf(s: string, c: char): (i: nat)
    ensures i <= |s| && c !in s[..i] && (i < |s| ==> s[i] == c)
  {
    if s == "" then 0 else if s[0] == c then 0
    else
      var i := 1 + IndexOf(s[1..], c);
      assert s[..i] == [s[0]] + s[1..][..i - 1];
      i
  }

  function Split(s: string, sep: char): (parts: seq<string>)
    ensures |parts| >= 1
    ensures forall p | p in parts :: sep !in p
    decreases |s|
  {
    var i := IndexOf(s, sep);
    if i == |s| then assert s[..i] == s; [s] else [s[..i]] + Split(s[i + 1..], sep)
  }

  function Join(parts: seq<string>, sep: char): string {
    if |parts| == 0 then "" else if |parts| == 1 then parts[0] else parts[0] + [sep] + Join(parts[1..], sep)
  }

  lemma JoinFirst(p: string, parts: seq<string>, sep: char)
    requires |parts| >= 1
    ensures Join([p] + parts, sep) == p + [sep] + Join(parts, sep)
  {
    assert ([p] + parts)[1..] == parts;
  }

  lemma {:induction false} JoinSplit(s: string, sep: char)
    ensures Join(Split(s, sep), sep) == s
    decreases |s|
  {
    var i := IndexOf(s, sep);
    if i < |s| {
      JoinSplit(s[i + 1..], sep);
      JoinFirst(s[..i], Split(s[i + 1..], sep), sep);
      CutAt(s, i);
    }
  }

  lemma {:induction false} IndexOfFirst(p: string, c: char, rest: string)
    requires c !in p
    ensures IndexOf(p + [c] + rest, c) == |p|
    decreases |p|
  {
    if p != "" {
      IndexOfFirst(p[1..], c, rest);
      assert (p + [c] + rest)[1..] == p[1..] + [c] + rest;
    }
  }

  lemma SplitFirst(p: string, sep: char, rest: string)
    requires sep !in p
    ensures Split(p + [sep] + rest, sep) == [p] + Split(rest, sep)
  {
    var s := p + [sep] + rest;
    IndexOfFirst(p, sep, rest);
    assert s[..|p|] == p && s[|p| + 1..] == rest;
  }

  lemma SplitNone(p: string, sep: char)
    requires sep !in p
    ensures Split(p, sep) == [p]
  {
  }

  lemma SplitAppendStep(p: string, b: string, sep: char, rest: string)
    requires sep !in p && Split(b + [sep] + rest, sep) == Split(b, sep) + Split(rest, sep)
    ensures Split((p + [sep] + b) + [sep] + rest, sep) == Split(p + [sep] + b, sep) + Split(rest, sep)
  {
    Regroup(p + [sep], b, [sep] + rest);
    Regroup(p + [sep] + b, [sep], rest);
    Regroup(b, [sep], rest);
    SplitFirst(p, sep, b);
    SplitFirst(p, sep, b + [sep] + rest);
    Regroup([p], Split(b, sep), Split(rest, sep));
  }

  /** A separator anywhere splits the pieces around it independently. */
  lemma {:induction false} SplitAppend(a: string, sep: char, rest: string)
    ensures Split(a + [sep] + rest, sep) == Split(a, sep) + Split(rest, sep)
    decreases |a|
  {
    var i := IndexOf(a, sep);
    if i == |a| {
      assert a[..i] == a;
      SplitNone(a, sep);
      SplitFirst(a, sep, rest);
    } else {
      SplitAppend(a[i + 1..], sep, rest);
      SplitAppendStep(a[..i], a[i + 1..], sep, rest);
      CutAt(a, i);
    }
  }

  lemma {:induction false} SplitJoin(parts: seq<string>, sep: char)
    requires |parts| >= 1 && forall p | p in parts :: sep !in p
    ensures Split(Join(parts, sep), sep) == parts
    decreases |parts|
  {
    if |parts| == 1 {
      SplitNone(parts[0], sep);
    } else {
      SplitJoin(parts[1..], sep);
      SplitFirst(parts[0], sep, Join(parts[1..], sep));
    }
  }

  // ---- White space -------------------------------------------------------------------------

  predicate AsciiSpace(c: char) {
    c == ' ' || c == '\t' || c == '\n' || c == '\U{0B}' || c == '\U{0C}' || c == '\r'
  }

  /** U+0085 and U+00A0. */
  predicate TwoByteSpace(a: char, b: char) { a == '\U{C2}' && (b == '\U{85}' || b == '\U{A0}') }

  /** U+1680, U+2000 to U+200A, U+2028, U+2029, U+202F, U+205F and U+3000. */
  predicate ThreeByteSpace(a: char, b: char, c: char) {
    || (a == '\U{E1}' && b == '\U{9A}' && c == '\U{80}')
    || (a == '\U{E2}' && b == '\U{80}'
        && ('\U{80}' <= c <= '\U{8A}' || c == '\U{A8}' || c == '\U{A9}' || c == '\U{AF}'))
    || (a == '\U{E2}' && b == '\U{81}' && c == '\U{9F}')
    || (a == '\U{E3}' && b == '\U{80}' && c == '\U{80}')
  }

  /** The length of the white-space character s starts with, or 0. */
  function LeadingSpace(s: string): (n: nat)
    ensures n <= |s|
  {
    if |s| >= 1 && AsciiSpace(s[0]) then 1
    else if |s| >= 2 && TwoByteSpace(s[0], s[1]) then 2
    else if |s| >= 3 && ThreeByteSpace(s[0], s[1], s[2]) then 3
    else 0
  }

  function TrailingSpace(s: string): (n: nat)
    ensures n <= |s|
  {
    var k := |s|;
    if k >= 1 && AsciiSpace(s[k - 1]) then 1
    else if k >= 2 && TwoByteSpace(s[k - 2], s[k - 1]) then 2
    else if k >= 3 && ThreeByteSpace(s[k - 3], s[k - 2], s[k - 1]) then 3
    else 0
  }

  function TrimLeft(s: string): string
    decreases |s|
  {
    var n := LeadingSpace(s);
    if n == 0 then s else TrimLeft(s[n..])
  }

  function TrimRight(s: string): string
    decreases |s|
  {
    var n := TrailingSpace(s);
    if n == 0 then s else TrimRight(s[..|s| - n])
  }

  lemma {:induction false} TrimLeftIsSuffix(s: string)
    ensures var t := TrimLeft(s); LeadingSpace(t) == 0 && |t| <= |s| && t == s[|s| - |t|..]
    decreases |s|
  {
    var n := LeadingSpace(s);
    if n > 0 {
      TrimLeftIsSuffix(s[n..]);
      DropFurther(s, n, |s| - n - |TrimLeft(s[n..])|);
    }
  }

  lemma {:induction false} TrimRightIsPrefix(s: string)
    ensures TrailingSpace(TrimRight(s)) == 0 && TrimRight(s) <= s
    decreases |s|
  {
    var n := TrailingSpace(s);
    if n > 0 { TrimRightIsPrefix(s[..|s| - n]); }
  }

  function TrimSpace(s: string): string { TrimRight(TrimLeft(s)) }

  predicate Trimmed(s: string) { TrimSpace(s) == s }

  /** A byte that occurs in no white-space encoding. */
  predicate Solid(c: char) { '!' <= c <= '~' }

  lemma {:induction false} TrimLeftStopsAt(p: string, c: char, q: string)
    requires Solid(c)
    ensures TrimLeft(p + [c] + q) == TrimLeft(p) + [c] + q
    decreases |p|
  {
    var s := p + [c] + q;
    var n := LeadingSpace(p);
    assert LeadingSpace(s) == n;
    if n > 0 {
      assert s[n..] == p[n..] + [c] + q;
      TrimLeftStopsAt(p[n..], c, q);
    }
  }

  lemma {:induction false} TrimRightStopsAt(p: string, c: char, q: string)
    requires Solid(c)
    ensures TrimRight(p + [c] + q) == p + [c] + TrimRight(q)
    decreases |q|
  {
    var s := p + [c] + q;
    var n := TrailingSpace(q);
    assert TrailingSpace(s) == n;
    if n > 0 {
      DropEnd(p + [c], q, n);
      TrimRightStopsAt(p, c, q[..|q| - n]);
    }
  }

  lemma LeadingSpaceOfPrefix(s: string, t: string)
    requires t <= s && LeadingSpace(s) == 0
    ensures LeadingSpace(t) == 0
  {
  }

  /** No white-space character spans the end of another one. */
  lemma NoSpan(p: string, y: string)
    requires LeadingSpace(p) == |p| > 0 && y != ""
    ensures TrailingSpace(p + y) == TrailingSpace(y)
  {
    var s := p + y;
    var k := |s|;
    assert s[k - 1] == y[|y| - 1];
    if |y| >= 2 {
      assert s[k - 2] == y[|y| - 2];
      if |y| == 2 { assert s[k - 3] == p[|p| - 1]; } else { assert s[k - 3] == y[|y| - 3]; }
    } else {
      assert s[k - 2] == p[|p| - 1];
      if |p| >= 2 { assert s[k - 3] == p[|p| - 2]; }
    }
  }

  /** Trimming the right end of one white-space character followed by y. */
  lemma {:induction false} TrimRightAfterSpace(p: string, y: string)
    requires LeadingSpace(p) == |p| > 0
    ensures TrimRight(p + y) == if TrimRight(y) == "" then "" else p + TrimRight(y)
    decreases |y|
  {
    if y == "" {
      assert p + y == p;
      assert TrailingSpace(p) == |p|;
    } else {
      NoSpan(p, y);
      var n := TrailingSpace(y);
      if n > 0 {
        DropEnd(p, y, n);
        TrimRightAfterSpace(p, y[..|y| - n]);
      }
    }
  }

  lemma {:induction false} TrimsCommute(x: string)
    ensures TrimLeft(TrimRight(x)) == TrimRight(TrimLeft(x))
    decreases |x|
  {
    var n := LeadingSpace(x);
    if n == 0 {
      TrimRightIsPrefix(x);
      LeadingSpaceOfPrefix(x, TrimRight(x));
      TrimLeftFixed(TrimRight(x));
    } else {
      assert x == x[..n] + x[n..];
      TrimRightAfterSpace(x[..n], x[n..]);
      TrimsCommute(x[n..]);
      var y := TrimRight(x[n..]);
      if y != "" {
        assert (x[..n] + y)[n..] == y;
        assert LeadingSpace(x[..n] + y) == n;
      }
    }
  }

  lemma TrimLeftFixed(s: string)
    requires LeadingSpace(s) == 0
    ensures TrimLeft(s) == s
  {
  }

  lemma TrimRightFixed(s: string)
    requires TrailingSpace(s) == 0
    ensures TrimRight(s) == s
  {
  }

  lemma TrimLeftTwice(s: string)
    ensures TrimLeft(TrimLeft(s)) == TrimLeft(s)
  {
    TrimLeftIsSuffix(s);
    TrimLeftFixed(TrimLeft(s));
  }

  lemma TrimRightTwice(s: string)
    ensures TrimRight(TrimRight(s)) == TrimRight(s)
  {
    TrimRightIsPrefix(s);
    TrimRightFixed(TrimRight(s));
  }

  /** Trimming is idempotent, and trimming one end first changes nothing. */
  lemma TrimIsTrimmed(s: string)
    ensures Trimmed(TrimSpace(s))
    ensures TrimSpace(TrimLeft(s)) == TrimSpace(s) && TrimSpace(TrimRight(s)) == TrimSpace(s)
  {
    TrimLeftTwice(s);
    TrimRightTwice(TrimLeft(s));
    TrimsCommute(s);
    TrimsCommute(TrimLeft(s));
    TrimsCommute(TrimRight(s));
    TrimRightTwice(s);
  }

  lemma TrimIsMiddle(s: string) returns (pre: string, post: string)
    ensures s == pre + TrimSpace(s) + post
  {
    var left := TrimLeft(s);
    var t := TrimRight(left);
    TrimLeftIsSuffix(s);
    TrimRightIsPrefix(left);
    pre, post := s[..|s| - |left|], left[|t|..];
    assert left == t + post;
    assert s == pre + left;
    Regroup(pre, t, post);
  }

  // ---- What trimming is ------------------------------------------------------------------------------

  /** The white-space characters of Unicode in UTF-8: the six of ASCII, U+0085, U+00A0, U+1680, U+2000 to
      U+200A, U+2028, U+2029, U+202F, U+205F and U+3000. */
  predicate IsSpace(w: string) {
    || w == " " || w == "\t" || w == "\n" || w == "\U{0B}" || w == "\U{0C}" || w == "\r"
    || w == "\U{C2}\U{85}" || w == "\U{C2}\U{A0}" || w == "\U{E1}\U{9A}\U{80}"
    || (|w| == 3 && w[0] == '\U{E2}' && w[1] == '\U{80}'
        && ('\U{80}' <= w[2] <= '\U{8A}' || w[2] == '\U{A8}' || w[2] == '\U{A9}' || w[2] == '\U{AF}'))
    || w == "\U{E2}\U{81}\U{9F}" || w == "\U{E3}\U{80}\U{80}"
  }

  lemma SpaceOf(w: string)
    ensures IsSpace(w) <==>
              || (|w| == 1 && AsciiSpace(w[0]))
              || (|w| == 2 && TwoByteSpace(w[0], w[1]))
              || (|w| == 3 && ThreeByteSpace(w[0], w[1], w[2]))
  {
    if |w| == 1 { assert w == [w[0]]; }
    if |w| == 2 { assert w == [w[0], w[1]]; }
    if |w| == 3 { assert w == [w[0], w[1], w[2]]; }
  }

  /** A white-space character at one end is what the trimmed end starts with. */
  lemma LeadingSpaceIs(s: string, k: nat)
    requires k <= |s|
    ensures LeadingSpace(s) == 0 ==> !IsSpace(s[..k])
    ensures LeadingSpace(s) > 0 ==> IsSpace(s[..LeadingSpace(s)])
  {
    SpaceOf(s[..k]);
    SpaceOf(s[..LeadingSpace(s)]);
  }

  lemma TrailingSpaceIs(s: string, k: nat)
    requires k <= |s|
    ensures TrailingSpace(s) == 0 ==> !IsSpace(s[|s| - k..])
    ensures TrailingSpace(s) > 0 ==> IsSpace(s[|s| - TrailingSpace(s)..])
  {
    SpaceOf(s[|s| - k..]);
    SpaceOf(s[|s| - TrailingSpace(s)..]);
  }

  /** White-space characters and nothing else. */
  ghost predicate Blank(s: string)
    decreases |s|
  {
    s == "" || exists n :: 0 < n <= |s| && IsSpace(s[..n]) && Blank(s[n..])
  }

  lemma BlankCons(w: string, x: string)
    requires IsSpace(w) && w != "" && Blank(x)
    ensures Blank(w + x)
  {
    var s := w + x;
    assert s[..|w|] == w && s[|w|..] == x;
  }

  lemma {:induction false} BlankAppend(a: string, w: string)
    requires Blank(a) && IsSpace(w) && w != ""
    ensures Blank(a + w)
    decreases |a|
  {
    if a == "" {
      BlankCons(w, "");
      assert a + w == w + "";
    } else {
      var n :| 0 < n <= |a| && IsSpace(a[..n]) && Blank(a[n..]);
      var head, tail := a[..n], a[n..];
      TakeAndDrop(a, n);
      BlankAppend(tail, w);
      BlankCons(head, tail + w);
      Regroup(head, tail, w);
    }
  }

  lemma {:induction false} TrimLeftIs(s: string) returns (pre: string)
    ensures s == pre + TrimLeft(s) && Blank(pre)
    decreases |s|
  {
    var n := LeadingSpace(s);
    if n == 0 {
      pre := "";
    } else {
      LeadingSpaceIs(s, 0);
      pre := TrimLeftIs(s[n..]);
      BlankCons(s[..n], pre);
      TakeAndDrop(s, n);
      Regroup(s[..n], pre, TrimLeft(s[n..]));
      pre := s[..n] + pre;
    }
  }

  lemma {:induction false} TrimRightIs(s: string) returns (post: string)
    ensures s == TrimRight(s) + post && Blank(post)
    decreases |s|
  {
    var n := TrailingSpace(s);
    if n == 0 {
      post := "";
    } else {
      var k := |s| - n;
      TrailingSpaceIs(s, 0);
      post := TrimRightIs(s[..k]);
      BlankAppend(post, s[k..]);
      TakeAndDrop(s, k);
      Regroup(TrimRight(s[..k]), post, s[k..]);
      post := post + s[k..];
    }
  }

  /** TrimSpace takes white space away at both ends, all of it and nothing else. */
  lemma TrimSpaceIs(s: string) returns (pre: string, post: string)
    ensures s == pre + (TrimSpace(s) + post) && Blank(pre) && Blank(post)
    ensures var t := TrimSpace(s); forall k | 0 < k <= |t| :: !IsSpace(t[..k]) && !IsSpace(t[|t| - k..])
  {
    pre := TrimLeftIs(s);
    post := TrimRightIs(TrimLeft(s));
    var t := TrimSpace(s);
    TrimLeftIsSuffix(s);
    TrimRightIsPrefix(TrimLeft(s));
    LeadingSpaceOfPrefix(TrimLeft(s), t);
    forall k | 0 < k <= |t| ensures !IsSpace(t[..k]) && !IsSpace(t[|t| - k..]) {
      LeadingSpaceIs(t, k);
      TrailingSpaceIs(t, k);
    }
  }

  /** Trimming keeps every byte that belongs to no white-space character. */
  lemma TrimKeeps(s: string, c: char)
    requires c < '\U{80}' && !AsciiSpace(c)
    ensures c in TrimSpace(s) <==> c in s
  {
    TrimLeftKeeps(s, c);
    TrimRightKeeps(TrimLeft(s), c);
  }

  lemma {:induction false} TrimLeftKeeps(s: string, c: char)
    requires c < '\U{80}' && !AsciiSpace(c)
    ensures c in TrimLeft(s) <==> c in s
    decreases |s|
  {
    var n := LeadingSpace(s);
    if n > 0 {
      TrimLeftKeeps(s[n..], c);
      assert s == s[..n] + s[n..];
    }
  }

  lemma {:induction false} TrimRightKeeps(s: string, c: char)
    requires c < '\U{80}' && !AsciiSpace(c)
    ensures c in TrimRight(s) <==> c in s
    decreases |s|
  {
    var n := TrailingSpace(s);
    if n > 0 {
      TrimRightKeeps(s[..|s| - n], c);
      assert s == s[..|s| - n] + s[|s| - n..];
    }
  }

  /** A string whose first and last bytes are solid is already trimmed. */
  lemma SolidEndsAreTrimmed(s: string)
    requires |s| >= 1 && Solid(s[0]) && Solid(s[|s| - 1])
    ensures Trimmed(s)
  {
    TrimLeftFixed(s);
    TrimRightFixed(s);
  }
}
