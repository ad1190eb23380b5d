/** Python's `str.split(sep)` and `sep.join(pieces)` on `seq<char>`. */
module Strings {
  import opened Wrappers

  /** `sep` occurs in `s` starting at index `k`. */
  predicate OccursAt(s: string, sep: string, k: int) {
    0 <= k && k + |sep| <= |s| && s[k..k + |sep|] == sep
  }

  /** Python's `sep in s`. */
  ghost predicate Occurs(s: string, sep: string) {
    exists k :: OccursAt(s, sep, k)
  }

  predicate EndsWith(s: string, suffix: string) {
    |suffix| <= |s| && s[|s| - |suffix|..] == suffix
  }

  /** The first occurrence of `sep` in `s` at or after `i` (`str.find`). */
  function FindFrom(s: string, sep: string, i: nat): (r: Option<nat>)
    requires i <= |s|
    ensures r.Some? ==> i <= r.value && OccursAt(s, sep, r.value)
    ensures r.Some? ==> forall j :: i <= j < r.value ==> !OccursAt(s, sep, j)
    ensures r.None? ==> forall j :: i <= j ==> !OccursAt(s, sep, j)
    decreases |s| - i
  {
    if i + |sep| > |s| then None
    else if s[i..i + |sep|] == sep then Some(i)
    else FindFrom(s, sep, i + 1)
  }

  function Find(s: string, sep: string): (r: Option<nat>)
    ensures r.Some? ==> OccursAt(s, sep, r.value)
    ensures r.Some? ==> forall j :: 0 <= j < r.value ==> !OccursAt(s, sep, j)
    ensures r.None? ==> !Occurs(s, sep)
  {
    FindFrom(s, sep, 0)
  }

  /** A prefix of `s` that ends before the first occurrence of `sep` holds no `sep`. */
  lemma PrefixBeforeFirstIsFree(s: string, sep: string, k: nat)
    requires |sep| > 0 && k <= |s|
    requires forall j :: 0 <= j < k ==> !OccursAt(s, sep, j)
    ensures !Occurs(s[..k], sep)
  {
    if Occurs(s[..k], sep) {
      var j :| OccursAt(s[..k], sep, j);
      assert s[..k][j..j + |sep|] == s[j..j + |sep|];
      assert OccursAt(s, sep, j);
      assert false;
    }
  }

  /**
   * Python's `s.split(sep)` for a non-empty separator: cut at the first
   * occurrence, then split what follows it.
   */
  function Split(s: string, sep: string): (pieces: seq<string>)
    requires |sep| > 0
    ensures |pieces| >= 1
    ensures forall i :: 0 <= i < |pieces| ==> !Occurs(pieces[i], sep)
    decreases |s|
  {
    match Find(s, sep)
    case None => [s]
    case Some(k) =>
      PrefixBeforeFirstIsFree(s, sep, k);
      [s[..k]] + Split(s[k + |sep|..], sep)
  }

  /** Python's `sep.join(pieces)`. */
  function Join(pieces: seq<string>, sep: string): string
    decreases |pieces|
  {
    if |pieces| == 0 then ""
    else if |pieces| == 1 then pieces[0]
    else pieces[0] + sep + Join(pieces[1..], sep)
  }

  lemma JoinCons(head: string, rest: seq<string>, sep: string)
    requires |rest| > 0
    ensures Join([head] + rest, sep) == head + sep + Join(rest, sep)
  {
    assert ([head] + rest)[1..] == rest;
  }

  /** At the first separator, the pieces are the text before it and the pieces of the rest. */
  lemma SplitAtFirst(s: string, sep: string, k: nat)
    requires |sep| > 0 && Find(s, sep) == Some(k)
    ensures k + |sep| <= |s|
    ensures Split(s, sep) == [s[..k]] + Split(s[k + |sep|..], sep)
  {
  }

  /** Cutting `s` around an occurrence of `sep` and gluing it back gives `s`. */
  lemma CutAround(s: string, sep: string, k: nat)
    requires OccursAt(s, sep, k)
    ensures s == s[..k] + sep + s[k + |sep|..]
  {
    assert s == s[..k] + s[k..k + |sep|] + s[k + |sep|..];
  }

  /** Joining one more piece appends the separator and that piece. */
  lemma {:induction false} JoinSnoc(pieces: seq<string>, last: string, sep: string)
    requires |pieces| > 0
    ensures Join(pieces + [last], sep) == Join(pieces, sep) + sep + last
    decreases |pieces|
  {
    var all := pieces + [last];
    if |pieces| == 1 {
      assert all[1..] == [last];
    } else {
      assert all[1..] == pieces[1..] + [last];
      JoinSnoc(pieces[1..], last, sep);
      var head := pieces[0] + sep;
      var rest := Join(pieces[1..], sep);
      assert head + (rest + sep + last) == head + rest + sep + last;
    }
  }

  /** Joining the pieces back with the separator gives the original text. */
  lemma {:induction false} JoinSplit(s: string, sep: string)
    requires |sep| > 0
    ensures Join(Split(s, sep), sep) == s
    decreases |s|
  {
    match Find(s, sep)
    case None =>
      assert Split(s, sep) == [s];
    case Some(k) =>
      SplitAtFirst(s, sep, k);
      CutAround(s, sep, k);
      var rest := s[k + |sep|..];
      JoinSplit(rest, sep);
      JoinCons(s[..k], Split(rest, sep), sep);
  }

  /** Python's `s.split(sep)[-1]`. */
  function LastPiece(s: string, sep: string): string
    requires |sep| > 0
  {
    var pieces := Split(s, sep);
    pieces[|pieces| - 1]
  }

  /** Past the first separator, the last piece is the last piece of what follows it. */
  lemma LastPieceOfRest(s: string, sep: string, k: nat)
    requires |sep| > 0 && Find(s, sep) == Some(k)
    ensures k + |sep| <= |s|
    ensures LastPiece(s, sep) == LastPiece(s[k + |sep|..], sep)
  {
    SplitAtFirst(s, sep, k);
  }

  /** A suffix of a suffix is a suffix. */
  lemma EndsWithTransitive(s: string, rest: string, suffix: string)
    requires EndsWith(s, rest) && EndsWith(rest, suffix)
    ensures EndsWith(s, suffix)
  {
    assert s[|s| - |suffix|..] == rest[|rest| - |suffix|..];
  }

  /**
   * The last piece holds no separator; when the separator occurs at all,
   * `s` ends with the separator followed by the last piece, and otherwise
   * the last piece is `s` itself.
   */
  lemma {:induction false} LastPieceSpec(s: string, sep: string)
    requires |sep| > 0
    ensures !Occurs(LastPiece(s, sep), sep)
    ensures Occurs(s, sep) ==> EndsWith(s, sep + LastPiece(s, sep))
    ensures !Occurs(s, sep) ==> LastPiece(s, sep) == s
    decreases |s|
  {
    var pieces := Split(s, sep);
    assert !Occurs(pieces[|pieces| - 1], sep);
    match Find(s, sep)
    case None =>
      assert pieces == [s];
    case Some(k) =>
      var rest := s[k + |sep|..];
      var t := LastPiece(s, sep);
      LastPieceOfRest(s, sep, k);
      LastPieceSpec(rest, sep);
      assert OccursAt(s, sep, k);
      assert EndsWith(s, sep + rest) by {
        assert s[k..] == s[k..k + |sep|] + rest;
      }
      if Occurs(rest, sep) {
        assert EndsWith(sep + rest, rest);
        EndsWithTransitive(s, rest, sep + t);
      }
  }

  /** `s` holds no `c`. */
  predicate Lacks(s: string, c: char)
  {
    forall i :: 0 <= i < |s| ==> s[i] != c
  }

  lemma OccursAtChar(s: string, c: char, k: int)
    requires OccursAt(s, [c], k)
    ensures s[k] == c
  {
    assert s[k..k + 1] == [c];
  }

  lemma LacksNoSeparator(s: string, c: char)
    requires Lacks(s, c)
    ensures Find(s, [c]) == None
  {
    match Find(s, [c])
    case None =>
    case Some(k) =>
      OccursAtChar(s, c, k);
      assert false;
  }

  /** The first `c` of `p + [c] + t`, for a `p` without `c`, is the one right after `p`. */
  lemma FindAfterFree(p: string, t: string, c: char)
    requires Lacks(p, c)
    ensures Find(p + [c] + t, [c]) == Some(|p|)
  {
    var s := p + [c] + t;
    assert s[|p|..|p| + 1] == [c];
    assert OccursAt(s, [c], |p|);
    match Find(s, [c])
    case None =>
    case Some(k) =>
      if k < |p| {
        OccursAtChar(s, c, k);
        assert false;
      }
  }

  /**
   * Splitting on a one-character separator undoes joining with it, when no
   * piece holds that character.
   */
  lemma {:induction false} SplitJoin(pieces: seq<string>, c: char)
    requires |pieces| > 0
    requires forall i :: 0 <= i < |pieces| ==> Lacks(pieces[i], c)
    ensures Split(Join(pieces, [c]), [c]) == pieces
    decreases |pieces|
  {
    if |pieces| == 1 {
      LacksNoSeparator(pieces[0], c);
    } else {
      var head := pieces[0];
      var rest := pieces[1..];
      var t := Join(rest, [c]);
      var s := Join(pieces, [c]);
      assert s == head + [c] + t;
      FindAfterFree(head, t, c);
      SplitAtFirst(s, [c], |head|);
      assert s[..|head|] == head;
      assert s[|head| + 1..] == t;
      SplitJoin(rest, c);
      assert pieces == [head] + rest;
    }
  }
}
