/** Capture lists: which entries open and close, when a list is well nested, and the search for the
    opener of a closing capture (lib/lpeg.c:1750-1782). */
module LpegCaptures {
  import opened LpegCode

  predicate IsClose(x: Capture) {
    x.kind == CCLOSE
  }

  /** An entry whose size is still unknown waits for its closing entry. */
  predicate IsOpen(x: Capture) {
    !IsClose(x) && x.siz == 0
  }

  /** How many entries of a list still wait to be closed. */
  function Waiting(d: seq<Capture>): nat {
    if d == [] then 0
    else
      var (w, x) := (Waiting(d[..|d| - 1]), d[|d| - 1]);
      if IsOpen(x) then w + 1 else if IsClose(x) && w > 0 then w - 1 else w
  }

  /** Every closing entry has an opener before it, and every size fits in a byte. */
  predicate WellNested(d: seq<Capture>) {
    d == [] ||
    var (init, x) := (d[..|d| - 1], d[|d| - 1]);
    WellNested(init) && x.siz <= UCHAR_MAX && (IsClose(x) ==> x.siz == 1 && Waiting(init) > 0)
  }

  predicate Balanced(d: seq<Capture>) {
    WellNested(d) && Waiting(d) == 0
  }

  lemma {:induction false} WaitingConcat(a: seq<Capture>, d: seq<Capture>)
    requires WellNested(d)
    ensures Waiting(a + d) == Waiting(a) + Waiting(d)
    decreases |d|
  {
    if d == [] {
      assert a + d == a;
    } else {
      assert (a + d)[..|a + d| - 1] == a + d[..|d| - 1];
      WaitingConcat(a, d[..|d| - 1]);
    }
  }

  lemma {:induction false} WellNestedConcat(a: seq<Capture>, d: seq<Capture>)
    requires WellNested(a) && WellNested(d)
    ensures WellNested(a + d)
    decreases |d|
  {
    if d == [] {
      assert a + d == a;
    } else {
      var init := d[..|d| - 1];
      assert (a + d)[..|a + d| - 1] == a + init;
      WellNestedConcat(a, init);
      WaitingConcat(a, init);
    }
  }

  lemma BalancedConcat(a: seq<Capture>, d: seq<Capture>)
    requires Balanced(a) && Balanced(d)
    ensures Balanced(a + d)
  {
    WaitingConcat(a, d);
    WellNestedConcat(a, d);
  }

  lemma WaitingOne(a: seq<Capture>, x: Capture)
    ensures Waiting(a + [x]) ==
      if IsOpen(x) then Waiting(a) + 1 else if IsClose(x) && Waiting(a) > 0 then Waiting(a) - 1 else Waiting(a)
    ensures WellNested(a + [x]) ==
      (WellNested(a) && x.siz <= UCHAR_MAX && (IsClose(x) ==> x.siz == 1 && Waiting(a) > 0))
  {
    assert (a + [x])[..|a|] == a;
  }

  /** An opener, a balanced list and a closing entry. */
  lemma BalancedAround(open: Capture, d: seq<Capture>, close: Capture)
    requires IsOpen(open) && Balanced(d) && IsClose(close) && close.siz == 1
    ensures Balanced([open] + d + [close]) && Waiting([open] + d) == 1
  {
    WaitingOne([], open);
    assert [] + [open] == [open];
    WaitingConcat([open], d);
    WellNestedConcat([open], d);
    WaitingOne([open] + d, close);
  }

  /** A well-nested list is the beginning of a balanced one. */
  lemma {:induction false} Completable(d: seq<Capture>) returns (rest: seq<Capture>)
    requires WellNested(d)
    ensures Balanced(d + rest)
    decreases Waiting(d)
  {
    if Waiting(d) == 0 {
      rest := [];
      assert d + rest == d;
    } else {
      var close := Capture(0, 0, CCLOSE, 1);
      WaitingOne(d, close);
      var more := Completable(d + [close]);
      rest := [close] + more;
      assert d + rest == d + [close] + more;
    }
  }

  // ----- the opener of a closing entry -----


  /** `findopen`: goes back from `i` to the first opener that is not closed before `i`. */
  method FindOpen(caps: seq<Capture>, i: nat) returns (k: nat)
    requires i <= |caps| && WellNested(caps[..i]) && Waiting(caps[..i]) > 0
    ensures k < i && IsOpen(caps[k]) && Balanced(caps[k + 1..i])
  {
    k := i;
    var n := 0;
    while true
      invariant k <= i && WellNested(caps[..k]) && Waiting(caps[..k]) > n
      invariant Closes(caps[k..i], n)
      decreases k
    {
      assert caps[..k][..k - 1] == caps[..k - 1] && caps[..k][k - 1] == caps[k - 1];
      ghost var d := caps[k..i];
      k := k - 1;
      assert caps[k..i] == [caps[k]] + d;
      ClosesOne(caps[k], d, n);
      if IsClose(caps[k]) {
        n := n + 1;
      } else if caps[k].siz == 0 {
        if n == 0 {
          assert caps[k + 1..i] == d;
          ClosesBalanced(d);
          return;
        }
        n := n - 1;
      }
    }
  }

  /** `d` closes `n` entries that were opened before it, and all that it opens. */
  predicate Closes(d: seq<Capture>, n: nat) {
    if d == [] then n == 0
    else
      d[0].siz <= UCHAR_MAX &&
      if IsClose(d[0]) then d[0].siz == 1 && n > 0 && Closes(d[1..], n - 1)
      else if IsOpen(d[0]) then Closes(d[1..], n + 1)
      else Closes(d[1..], n)
  }

  lemma ClosesOne(x: Capture, d: seq<Capture>, n: nat)
    requires Closes(d, n) && x.siz <= UCHAR_MAX && (IsClose(x) ==> x.siz == 1)
    ensures
      if IsClose(x) then Closes([x] + d, n + 1)
      else if IsOpen(x) then n > 0 ==> Closes([x] + d, n - 1)
      else Closes([x] + d, n)
  {
    assert ([x] + d)[1..] == d;
  }

  lemma {:induction false} ClosesAfter(a: seq<Capture>, d: seq<Capture>, n: nat)
    requires WellNested(a) && Waiting(a) == n && Closes(d, n)
    ensures Balanced(a + d)
    decreases |d|
  {
    if d == [] {
      assert a + d == a;
    } else {
      WaitingOne(a, d[0]);
      assert a + d == a + [d[0]] + d[1..];
      ClosesAfter(a + [d[0]], d[1..], Waiting(a + [d[0]]));
    }
  }

  lemma ClosesBalanced(d: seq<Capture>)
    requires Closes(d, 0)
    ensures Balanced(d)
  {
    ClosesAfter([], d, 0);
    assert [] + d == d;
  }
}
