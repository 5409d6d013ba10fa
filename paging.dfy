/**
 * Offset/limit pagination as both in-memory repositories do it: walk the
 * candidate list, skip every index below `offset`, stop once `limit`
 * elements have been taken.  Go's `int` parameters may be negative: a
 * negative offset skips nothing and a limit of zero or less takes nothing.
 */
module Paging {
  import opened Wrappers

  /** Index of the first element a page takes. */
  function PageStart(n: nat, offset: int): (start: nat)
    ensures start <= n
    ensures offset <= 0 ==> start == 0
    ensures 0 <= offset <= n ==> start == offset
    ensures offset >= n ==> start == n
  {
    if offset <= 0 then 0 else Min(offset, n)
  }

  /** The page the pagination loop selects from `s`. */
  function Page<T>(s: seq<T>, limit: int, offset: int): seq<T>
  {
    var start := PageStart(|s|, offset);
    if limit <= 0 then [] else s[start .. Min(start + limit, |s|)]
  }

  /** The pagination loop of both repositories (`for index, ord := range ...`). */
  method Paginate<T>(s: seq<T>, limit: int, offset: int) returns (result: seq<T>)
    ensures result == Page(s, limit, offset)
  {
    result := [];
    for index := 0 to |s|
      invariant result == Page(s[..index], limit, offset)
    {
      if index < offset {
        continue;
      }
      if |result| >= limit {
        assert s[..index] == s[..|s|][..index];
        PageOfLongPrefix(s, index, limit, offset);
        return;
      }
      assert s[..index + 1][..index] == s[..index];
      result := result + [s[index]];
    }
    assert s[..|s|] == s;
  }

  /** Once a prefix already yields a full page, the rest of the list is never looked at. */
  lemma PageOfLongPrefix<T>(s: seq<T>, index: nat, limit: int, offset: int)
    requires index <= |s|
    requires |Page(s[..index], limit, offset)| >= limit
    requires offset <= index
    ensures Page(s[..index], limit, offset) == Page(s, limit, offset)
  {
  }

  /** Bounds of one page: never more than `limit` elements, nothing past the end of the list. */
  lemma PageBounds<T>(s: seq<T>, limit: int, offset: int)
    ensures limit <= 0 ==> Page(s, limit, offset) == []
    ensures offset >= |s| ==> Page(s, limit, offset) == []
    ensures |Page(s, limit, offset)| <= (if limit <= 0 then 0 else limit)
    ensures 0 <= offset <= |s| && 0 < limit ==>
              |Page(s, limit, offset)| == Min(limit, |s| - offset)
    ensures forall x :: x in Page(s, limit, offset) ==> x in s
  {
  }

  /** The pages at offsets o, o+k, o+2k, ... up to the end of the list, concatenated. */
  function PagesFrom<T>(s: seq<T>, k: int, o: nat): seq<T>
    requires k > 0
    decreases |s| - o
  {
    if o >= |s| then [] else Page(s, k, o) + PagesFrom(s, k, o + k)
  }

  /**
   * Walking the pages of size k from offset o until the offset passes the end
   * yields exactly the rest of the list: no gaps, nothing twice.
   */
  lemma {:induction false} PagesFromCoverList<T>(s: seq<T>, k: int, o: nat)
    requires k > 0
    ensures PagesFrom(s, k, o) == (if o >= |s| then [] else s[o..])
    decreases |s| - o
  {
    if o < |s| {
      PagesFromCoverList(s, k, o + k);
      if o + k >= |s| {
        assert Page(s, k, o) == s[o..];
      } else {
        assert Page(s, k, o) + s[o + k..] == s[o..];
      }
    }
  }

  /** Two different pages of one duplicate-free list share no element. */
  lemma PagesDisjoint<T>(s: seq<T>, k: int, o1: nat, o2: nat, x: T)
    requires k > 0 && o1 + k <= o2 && NoDuplicates(s)
    requires x in Page(s, k, o1)
    ensures x !in Page(s, k, o2)
  {
    var p := Page(s, k, o1);
    var a :| 0 <= a < |p| && p[a] == x;
    assert s[o1 + a] == x;
    var q := Page(s, k, o2);
    forall b | 0 <= b < |q|
      ensures q[b] != x
    {
      assert q[b] == s[o2 + b];
    }
  }
}
