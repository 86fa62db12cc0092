/** The JavaScript string operations the dashboard and the request gate rely on:
    `startsWith`, `split` with a string separator, `join` and `trim`. */
module Text {
  import opened Wrappers

  /** `s.startsWith(prefix)` */
  predicate StartsWith(s: string, prefix: string)
    ensures StartsWith(s, prefix) ==> |prefix| <= |s|
  {
    |prefix| <= |s| && s[..|prefix|] == prefix
  }

  /** `s` starts with `prefix` exactly when `s` is `prefix` followed by some rest. */
  lemma StartsWithMeaning(s: string, prefix: string)
    ensures StartsWith(s, prefix) <==> exists rest :: s == prefix + rest
  {
    if StartsWith(s, prefix) {
      assert s == prefix + s[|prefix|..];
    }
    if exists rest :: s == prefix + rest {
      var rest :| s == prefix + rest;
      assert s[..|prefix|] == prefix;
    }
  }

  /** A prefix of a prefix is a prefix. */
  lemma StartsWithTrans(s: string, p: string, q: string)
    requires StartsWith(s, p) && StartsWith(p, q)
    ensures StartsWith(s, q)
  {
    assert s[..|q|] == s[..|p|][..|q|];
  }

  /** `sep` occurs in `s` at index `i`. */
  predicate Occurs(s: string, sep: string, i: int) {
    0 <= i && i + |sep| <= |s| && s[i..i + |sep|] == sep
  }

  /** `sep` occurs nowhere in `s`. */
  predicate Free(s: string, sep: string) {
    forall i | 0 <= i <= |s| :: !Occurs(s, sep, i)
  }

  /** The leftmost occurrence of `sep` in `s` at or after `from`: the scan `split` repeats. */
  function Find(s: string, sep: string, from: nat): (r: Option<nat>)
    decreases |s| - from
    ensures r.Some? ==> from <= r.value && Occurs(s, sep, r.value)
  {
    if from + |sep| > |s| then None
    else if s[from..from + |sep|] == sep then Some(from)
    else Find(s, sep, from + 1)
  }

  /** `Find` returns the leftmost occurrence at or after `from`, and nothing only when
      there is none. */
  lemma {:induction false} FindLeftmost(s: string, sep: string, from: nat)
    decreases |s| - from
    ensures Find(s, sep, from).Some? ==> forall j :: from <= j < Find(s, sep, from).value ==> !Occurs(s, sep, j)
    ensures Find(s, sep, from).None? ==> forall j :: from <= j ==> !Occurs(s, sep, j)
  {
    if from + |sep| <= |s| && s[from..from + |sep|] != sep {
      FindLeftmost(s, sep, from + 1);
    }
  }

  /** `s.split(sep)` for a non-empty separator: the pieces between the
      non-overlapping occurrences of `sep`, found left to right. */
  function Split(s: string, sep: string): (parts: seq<string>)
    requires sep != ""
    decreases |s|
    ensures |parts| >= 1
  {
    match Find(s, sep, 0)
    case None => [s]
    case Some(i) => [s[..i]] + Split(s[i + |sep|..], sep)
  }

  /** `parts.join(sep)` */
  function Join(parts: seq<string>, sep: string): (joined: string)
    ensures |parts| >= 1 ==> StartsWith(joined, parts[0])
  {
    if |parts| == 0 then ""
    else if |parts| == 1 then parts[0]
    else parts[0] + sep + Join(parts[1..], sep)
  }

  /** Joining the pieces of a split with the same separator gives back the string. */
  lemma {:induction false} JoinSplit(s: string, sep: string)
    requires sep != ""
    ensures Join(Split(s, sep), sep) == s
    decreases |s|
  {
    match Find(s, sep, 0)
    case None =>
    case Some(i) =>
      var rest := s[i + |sep|..];
      var tail := Split(rest, sep);
      JoinSplit(rest, sep);
      var parts := [s[..i]] + tail;
      assert Split(s, sep) == parts;
      assert parts[1..] == tail;
      assert Join(parts, sep) == s[..i] + sep + Join(tail, sep);
      assert s[i..i + |sep|] == sep;
      assert s == s[..i] + s[i..i + |sep|] + rest;
  }

  /** No piece of a split contains the separator. */
  lemma {:induction false} SplitPiecesFree(s: string, sep: string)
    requires sep != ""
    ensures forall p | p in Split(s, sep) :: Free(p, sep)
    decreases |s|
  {
    FindLeftmost(s, sep, 0);
    match Find(s, sep, 0)
    case None =>
    case Some(i) =>
      SplitPiecesFree(s[i + |sep|..], sep);
      var head := s[..i];
      forall j ensures !Occurs(head, sep, j) {
        if Occurs(head, sep, j) {
          assert head[j..j + |sep|] == s[j..j + |sep|];
          assert Occurs(s, sep, j);
        }
      }
  }

  /** If `k` is the first occurrence, `Find` from the start returns it. */
  lemma FindFirst(s: string, sep: string, k: nat)
    requires Occurs(s, sep, k)
    requires forall j :: 0 <= j < k ==> !Occurs(s, sep, j)
    ensures Find(s, sep, 0) == Some(k)
  {
    FindFrom(s, sep, 0, k);
  }

  lemma {:induction false} FindFrom(s: string, sep: string, from: nat, k: nat)
    requires from <= k && Occurs(s, sep, k)
    requires forall j :: from <= j < k ==> !Occurs(s, sep, j)
    ensures Find(s, sep, from) == Some(k)
    decreases k - from
  {
    if from < k {
      assert !Occurs(s, sep, from);
      FindFrom(s, sep, from + 1, k);
    }
  }

  lemma SplitFree(s: string, sep: string)
    requires sep != "" && Free(s, sep)
    ensures Split(s, sep) == [s]
  {
  }

  /** A separator that occurs exactly once, between `pre` and `post`, splits the string in two. */
  lemma SplitUnique(s: string, sep: string, pre: string, post: string)
    requires sep != ""
    requires s == pre + sep + post
    requires forall i :: Occurs(s, sep, i) <==> i == |pre|
    ensures Split(s, sep) == [pre, post]
  {
    assert s[|pre|..|pre| + |sep|] == sep;
    FindFirst(s, sep, |pre|);
    assert s[|pre| + |sep|..] == post;
    forall j ensures !Occurs(post, sep, j) {
      if Occurs(post, sep, j) {
        assert s[|pre| + |sep| + j..|pre| + |sep| + j + |sep|] == post[j..j + |sep|];
        assert Occurs(s, sep, |pre| + |sep| + j);
      }
    }
    SplitFree(post, sep);
    assert s[..|pre|] == pre;
    assert Split(s, sep) == [s[..|pre|]] + Split(s[|pre| + |sep|..], sep);
  }

  /** One step of `split`: a first separator at `f` adds one piece to the split of the rest. */
  lemma SplitAtFirst(s: string, sep: string, f: nat)
    requires sep != "" && Find(s, sep, 0) == Some(f)
    ensures |Split(s, sep)| == 1 + |Split(s[f + |sep|..], sep)|
  {
  }

  /** Where the separator occurs, `Find` from the start succeeds, at or before that place. */
  lemma FirstOccurrence(s: string, sep: string, i: int) returns (f: nat)
    requires Occurs(s, sep, i)
    ensures Find(s, sep, 0) == Some(f) && f <= i
  {
    FindLeftmost(s, sep, 0);
    f := Find(s, sep, 0).value;
  }

  /** An occurrence at or after `a` is an occurrence in the suffix from `a`. */
  lemma OccursInSuffix(s: string, sep: string, a: nat, j: int)
    requires a <= j && Occurs(s, sep, j)
    ensures Occurs(s[a..], sep, j - a)
  {
    assert s[a..][j - a..j - a + |sep|] == s[j..j + |sep|];
  }

  /** A string in which the separator occurs has at least two pieces. */
  lemma SplitOccurs(s: string, sep: string, i: int)
    requires sep != "" && Occurs(s, sep, i)
    ensures |Split(s, sep)| >= 2
  {
    FindLeftmost(s, sep, 0);
  }

  /** Two non-overlapping occurrences give at least three pieces. */
  lemma SplitTwice(s: string, sep: string, i: int, j: int)
    requires sep != "" && Occurs(s, sep, i) && Occurs(s, sep, j) && i + |sep| <= j
    ensures |Split(s, sep)| >= 3
  {
    var f := FirstOccurrence(s, sep, i);
    SplitAtFirst(s, sep, f);
    OccursInSuffix(s, sep, f + |sep|, j);
    SplitOccurs(s[f + |sep|..], sep, j - (f + |sep|));
  }

  /** For a one-character separator, an occurrence is just that character. */
  lemma OccursChar(s: string, c: char, i: int)
    ensures Occurs(s, [c], i) <==> 0 <= i < |s| && s[i] == c
  {
    if 0 <= i < |s| {
      assert s[i..i + 1] == [s[i]];
    }
  }

  lemma FreeChar(s: string, c: char)
    ensures Free(s, [c]) <==> c !in s
  {
    if c in s {
      var i :| 0 <= i < |s| && s[i] == c;
      OccursChar(s, c, i);
    } else {
      forall i ensures !Occurs(s, [c], i) {
        OccursChar(s, c, i);
      }
    }
  }

  /** The pieces of a split on a one-character separator never contain it. */
  lemma SplitCharPieces(s: string, c: char)
    ensures forall p | p in Split(s, [c]) :: c !in p
  {
    SplitPiecesFree(s, [c]);
    forall p | p in Split(s, [c]) ensures c !in p {
      FreeChar(p, c);
    }
  }

  /** The first piece of a split on `c` is the text up to the first `c`, or all of it. */
  lemma FirstPiece(x: string, c: char)
    ensures c !in Split(x, [c])[0]
    ensures Split(x, [c])[0] == x || StartsWith(x, Split(x, [c])[0] + [c])
  {
    SplitCharPieces(x, c);
    var v := Split(x, [c])[0];
    match Find(x, [c], 0)
    case None =>
    case Some(i) =>
      assert v == x[..i];
      assert x[i..i + 1] == [c];
      assert x[..i + 1] == v + [c];
  }

  /** Splitting the join of separator-free pieces gives the pieces back. */
  lemma {:induction false} SplitJoin(pieces: seq<string>, c: char)
    requires |pieces| >= 1
    requires forall p | p in pieces :: c !in p
    ensures Split(Join(pieces, [c]), [c]) == pieces
    decreases |pieces|
  {
    var p := pieces[0];
    if |pieces| == 1 {
      FreeChar(p, c);
      SplitFree(p, [c]);
    } else {
      assert c !in p by { assert p in pieces; }
      var tail := Join(pieces[1..], [c]);
      var s := Join(pieces, [c]);
      assert s == p + [c] + tail;
      OccursChar(s, c, |p|);
      forall j | 0 <= j < |p| ensures !Occurs(s, [c], j) {
        assert s[j] == p[j] && p[j] != c;
        OccursChar(s, c, j);
      }
      FindFirst(s, [c], |p|);
      assert s[|p| + 1..] == tail;
      assert s[..|p|] == p;
      SplitJoin(pieces[1..], c);
      assert [p] + pieces[1..] == pieces;
    }
  }

  /** Joining two non-empty lists joins each and puts one separator between them. */
  lemma {:induction false} JoinConcat(p: seq<string>, q: seq<string>, sep: string)
    requires |p| >= 1 && |q| >= 1
    ensures Join(p + q, sep) == Join(p, sep) + sep + Join(q, sep)
    decreases |p|
  {
    assert (p + q)[0] == p[0];
    if |p| > 1 {
      assert (p + q)[1..] == p[1..] + q;
      JoinConcat(p[1..], q, sep);
    } else {
      assert (p + q)[1..] == q;
    }
  }

  /** Splitting `a + c + b` on `c` splits `a` and `b` separately: `a` and `b` are the
      joins of their pieces, and splitting a join of `c`-free pieces gives them back. */
  lemma SplitConcat(a: string, b: string, c: char)
    ensures Split(a + [c] + b, [c]) == Split(a, [c]) + Split(b, [c])
  {
    var p, q := Split(a, [c]), Split(b, [c]);
    JoinSplit(a, [c]);
    JoinSplit(b, [c]);
    JoinConcat(p, q, [c]);
    SplitCharPieces(a, c);
    SplitCharPieces(b, c);
    SplitJoin(p + q, c);
  }

  /** Joining one more piece appends the separator and the piece. */
  lemma {:induction false} JoinSnoc(parts: seq<string>, x: string, sep: string)
    requires |parts| >= 1
    ensures Join(parts + [x], sep) == Join(parts, sep) + sep + x
    decreases |parts|
  {
    if |parts| > 1 {
      assert (parts + [x])[1..] == parts[1..] + [x];
      JoinSnoc(parts[1..], x, sep);
    }
  }

  /** The characters `String.prototype.trim` removes: WhiteSpace and LineTerminator
      of section 12.2 and 12.3 of ECMA-262. */
  predicate IsJsWhitespace(c: char) {
    c == '\t' || c == '\n' || c == '\U{000B}' || c == '\U{000C}' || c == '\r' || c == ' '
    || c == '\U{00A0}' || c == '\U{1680}' || ('\U{2000}' <= c <= '\U{200A}')
    || c == '\U{2028}' || c == '\U{2029}' || c == '\U{202F}' || c == '\U{205F}'
    || c == '\U{3000}' || c == '\U{FEFF}'
  }

  function TrimStart(s: string): (r: string)
    ensures |r| <= |s|
    ensures r == "" || !IsJsWhitespace(r[0])
  {
    if s != [] && IsJsWhitespace(s[0]) then TrimStart(s[1..]) else s
  }

  function TrimEnd(s: string): (r: string)
    ensures |r| <= |s| && r == s[..|r|]
    ensures r == "" || !IsJsWhitespace(r[|r| - 1])
  {
    if s != [] && IsJsWhitespace(s[|s| - 1]) then TrimEnd(s[..|s| - 1]) else s
  }

  /** `s.trim()`: neither end of the result is whitespace. */
  function Trim(s: string): (r: string)
    ensures |r| <= |s|
    ensures r == "" || (!IsJsWhitespace(r[0]) && !IsJsWhitespace(r[|r| - 1]))
  {
    TrimEnd(TrimStart(s))
  }

  predicate AllWhitespace(s: string) {
    forall i | 0 <= i < |s| :: IsJsWhitespace(s[i])
  }

  lemma {:induction false} TrimStartEmpty(s: string)
    ensures TrimStart(s) == "" <==> AllWhitespace(s)
    decreases |s|
  {
    if s != [] && IsJsWhitespace(s[0]) {
      TrimStartEmpty(s[1..]);
      assert forall i | 1 <= i < |s| :: s[i] == s[1..][i - 1];
    }
  }

  lemma {:induction false} TrimEndEmpty(s: string)
    ensures TrimEnd(s) == "" <==> AllWhitespace(s)
    decreases |s|
  {
    if s != [] && IsJsWhitespace(s[|s| - 1]) {
      TrimEndEmpty(s[..|s| - 1]);
      assert forall i | 0 <= i < |s| - 1 :: s[i] == s[..|s| - 1][i];
    }
  }

  /** `trimStart` drops a whitespace prefix of length `i` and keeps the rest. */
  lemma {:induction false} TrimStartCut(s: string) returns (i: nat)
    ensures i <= |s| && TrimStart(s) == s[i..] && AllWhitespace(s[..i])
    decreases |s|
  {
    if s != [] && IsJsWhitespace(s[0]) {
      var i' := TrimStartCut(s[1..]);
      i := i' + 1;
      assert s[1..][i'..] == s[i..];
      assert s[..i] == [s[0]] + s[1..][..i'];
    } else {
      i := 0;
    }
  }

  /** `trimEnd` keeps a prefix of length `j` and drops the whitespace after it. */
  lemma {:induction false} TrimEndCut(s: string) returns (j: nat)
    ensures j <= |s| && TrimEnd(s) == s[..j] && AllWhitespace(s[j..])
    decreases |s|
  {
    if s != [] && IsJsWhitespace(s[|s| - 1]) {
      var p := s[..|s| - 1];
      j := TrimEndCut(p);
      assert p[..j] == s[..j];
      assert s[j..] == p[j..] + [s[|s| - 1]];
    } else {
      j := |s|;
    }
  }

  /** What `s.trim()` returns: the middle of `s` after cutting whitespace from both ends. */
  lemma TrimSlice(s: string)
    ensures exists i, j | 0 <= i <= j <= |s| :: Trim(s) == s[i..j] && AllWhitespace(s[..i]) && AllWhitespace(s[j..])
  {
    var i := TrimStartCut(s);
    var t := s[i..];
    var j := TrimEndCut(t);
    assert Trim(s) == t[..j];
    assert t[..j] == s[i..i + j] by {
      assert forall m | 0 <= m < j :: t[..j][m] == s[i..i + j][m];
    }
    assert t[j..] == s[i + j..];
  }

  /** `!s.trim()`: a string trims to nothing exactly when it is all whitespace. */
  lemma TrimEmpty(s: string)
    ensures Trim(s) == "" <==> AllWhitespace(s)
  {
    var t := TrimStart(s);
    TrimStartEmpty(s);
    TrimEndEmpty(t);
    if t != "" {
      assert !IsJsWhitespace(t[0]);
    }
  }
}
