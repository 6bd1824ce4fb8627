/**
 * The classifiers look up an enum constant with `for (e : values()) if (...) return e;`:
 * the first constant, in declaration order, that passes a test. `FirstWhere` is that
 * scan as a function, with the two lemmas that characterise it.
 */
module EnumScan {
  import opened JavaText

  /** The first element of `xs`, in order, that satisfies `p`; None when there is none. */
  function FirstWhere<T>(xs: seq<T>, p: T -> bool): Option<T>
  {
    if |xs| == 0 then None else if p(xs[0]) then Some(xs[0]) else FirstWhere(xs[1..], p)
  }

  /** One step of the scan from position `i`: take `xs[i]` if it passes, else scan on. */
  lemma FirstWhereStep<T>(xs: seq<T>, p: T -> bool, i: nat)
    requires i < |xs|
    ensures FirstWhere(xs[i..], p) == if p(xs[i]) then Some(xs[i]) else FirstWhere(xs[i + 1..], p)
  {
    assert xs[i..][0] == xs[i];
    assert xs[i..][1..] == xs[i + 1..];
  }

  /** The scan by position: the first element at or after index `i` that satisfies `p`. */
  function FirstWhereFrom<T>(xs: seq<T>, p: T -> bool, i: nat): Option<T>
    requires i <= |xs|
    decreases |xs| - i
  {
    if i == |xs| then None else if p(xs[i]) then Some(xs[i]) else FirstWhereFrom(xs, p, i + 1)
  }

  /** Scanning the suffix from `i` is scanning by position from `i`. */
  lemma {:induction false} FirstWhereSuffix<T>(xs: seq<T>, p: T -> bool, i: nat)
    requires i <= |xs|
    ensures FirstWhere(xs[i..], p) == FirstWhereFrom(xs, p, i)
    decreases |xs| - i
  {
    if i < |xs| {
      FirstWhereStep(xs, p, i);
      FirstWhereSuffix(xs, p, i + 1);
    } else {
      assert xs[i..] == [];
    }
  }

  /** If `xs[k]` passes and nothing before it does, the scan returns `xs[k]`. */
  lemma {:induction false} FirstWhereAt<T>(xs: seq<T>, p: T -> bool, k: nat)
    requires k < |xs| && p(xs[k])
    requires forall j :: 0 <= j < k ==> !p(xs[j])
    ensures FirstWhere(xs, p) == Some(xs[k])
  {
    if k > 0 {
      assert !p(xs[0]);
      FirstWhereAt(xs[1..], p, k - 1);
    }
  }

  /** The scan finds nothing exactly when no element passes; what it finds passes and is in `xs`. */
  lemma {:induction false} FirstWhereNone<T>(xs: seq<T>, p: T -> bool)
    ensures FirstWhere(xs, p) == None <==> forall k :: 0 <= k < |xs| ==> !p(xs[k])
    ensures FirstWhere(xs, p).Some? ==> p(FirstWhere(xs, p).value) && FirstWhere(xs, p).value in xs
  {
    if |xs| > 0 && !p(xs[0]) {
      FirstWhereNone(xs[1..], p);
      assert forall k :: 1 <= k < |xs| ==> xs[k] == xs[1..][k - 1];
    }
  }

  /** No element occurs twice, as in an enum's `values()`. */
  predicate Distinct<T(==)>(xs: seq<T>)
  {
    forall i, j :: 0 <= i < j < |xs| ==> xs[i] != xs[j]
  }

  /** Over distinct elements, the scan returns `xs[k]` exactly when `xs[k]` is the first that passes. */
  lemma {:induction false} FirstWhereIff<T>(xs: seq<T>, p: T -> bool, k: nat)
    requires k < |xs| && Distinct(xs)
    ensures FirstWhere(xs, p) == Some(xs[k]) <==> p(xs[k]) && forall j :: 0 <= j < k ==> !p(xs[j])
  {
    if p(xs[k]) && forall j :: 0 <= j < k ==> !p(xs[j]) {
      FirstWhereAt(xs, p, k);
    }
    if FirstWhere(xs, p) == Some(xs[k]) && !p(xs[0]) {
      var rest := xs[1..];
      assert Distinct(rest) by {
        forall i, j | 0 <= i < j < |rest| ensures rest[i] != rest[j] {
          assert rest[i] == xs[i + 1] && rest[j] == xs[j + 1];
        }
      }
      if k == 0 {
        FirstWhereNone(rest, p);  // xs[0] would have to occur again in xs[1..]
      } else {
        FirstWhereIff(rest, p, k - 1);
        assert rest[k - 1] == xs[k];
        forall j | 0 <= j < k ensures !p(xs[j]) {
          if j > 0 {
            assert xs[j] == rest[j - 1];
          }
        }
      }
    }
  }

  /**
   * With a fallback `dflt` that is not `xs[k]`, the scan-or-fallback yields
   * `xs[k]` exactly when `xs[k]` is the first element that passes.
   */
  lemma FirstWhereOrIff<T>(xs: seq<T>, p: T -> bool, k: nat, dflt: T)
    requires k < |xs| && Distinct(xs) && xs[k] != dflt
    ensures FirstWhere(xs, p).GetOr(dflt) == xs[k] <==> p(xs[k]) && forall j :: 0 <= j < k ==> !p(xs[j])
  {
    FirstWhereIff(xs, p, k);
  }
}
