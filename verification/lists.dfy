/**
  Small sequence helpers shared by the model: an optional value, a
  success-or-message result, and order-preserving filtering with the
  facts about it the reconciliation proofs rely on.
 */
module Lists {

  /** An optional value: JavaScript's `undefined` or `null` becomes `None`. */
  datatype Option<+T> = None | Some(value: T) {

    /** The `??` operator: the carried value, or `default` when absent. */
    function GetOr(default: T): T {
      match this
      case Some(v) => v
      case None => default
    }
  }

  /** The outcome of a collaborator that may throw: a value or an error message. */
  datatype Result<+T> = Ok(value: T) | Err(message: string)

  /** `Array.prototype.filter`: the elements satisfying `f`, in their original order. */
  function Filter<T(==)>(s: seq<T>, f: T -> bool): (r: seq<T>)
    ensures |r| <= |s|
  {
    if |s| == 0 then []
    else if f(s[0]) then [s[0]] + Filter(s[1..], f)
    else Filter(s[1..], f)
  }

  /** The filtered sequence holds exactly the elements of `s` that satisfy `f`. */
  lemma {:induction false} FilterMembers<T>(s: seq<T>, f: T -> bool)
    ensures forall i | 0 <= i < |Filter(s, f)| :: f(Filter(s, f)[i]) && Filter(s, f)[i] in s
    ensures forall i | 0 <= i < |s| :: f(s[i]) ==> s[i] in Filter(s, f)
  {
    if |s| > 0 {
      FilterMembers(s[1..], f);
      var r := Filter(s, f);
      forall i | 0 <= i < |r|
        ensures f(r[i]) && r[i] in s
      {
        if f(s[0]) && i > 0 {
          assert r[i] == Filter(s[1..], f)[i - 1];
        }
      }
      forall i | 0 <= i < |s| && f(s[i])
        ensures s[i] in r
      {
        if i > 0 {
          assert s[i] == s[1..][i - 1];
        }
      }
    }
  }

  /** `n` copies of `x`. */
  function Repeat<T>(x: T, n: nat): (r: seq<T>)
    ensures |r| == n
    ensures forall i | 0 <= i < n :: r[i] == x
  {
    if n == 0 then [] else [x] + Repeat(x, n - 1)
  }

  /** `Array.prototype.join`: the parts with `sep` between consecutive ones. */
  function Join(parts: seq<string>, sep: string): (r: string)
    ensures |parts| == 1 ==> r == parts[0]
  {
    if |parts| == 0 then ""
    else if |parts| == 1 then parts[0]
    else parts[0] + sep + Join(parts[1..], sep)
  }

  /** Filtering distributes over concatenation: it keeps relative order. */
  lemma {:induction false} FilterAppend<T>(a: seq<T>, b: seq<T>, f: T -> bool)
    ensures Filter(a + b, f) == Filter(a, f) + Filter(b, f)
  {
    if |a| == 0 {
      assert a + b == b;
    } else {
      assert (a + b)[1..] == a[1..] + b;
      FilterAppend(a[1..], b, f);
    }
  }

  /** A filter that every element passes changes nothing. */
  lemma {:induction false} FilterKeepsAll<T>(s: seq<T>, f: T -> bool)
    requires forall i | 0 <= i < |s| :: f(s[i])
    ensures Filter(s, f) == s
  {
    if |s| > 0 {
      FilterKeepsAll(s[1..], f);
    }
  }

  /** Filtering by `f` and then by a stronger `g` is filtering by `g`. */
  lemma {:induction false} FilterOfFilter<T>(s: seq<T>, f: T -> bool, g: T -> bool)
    requires forall x :: g(x) ==> f(x)
    ensures Filter(Filter(s, f), g) == Filter(s, g)
  {
    if |s| > 0 {
      FilterOfFilter(s[1..], f, g);
    }
  }

  /** Two filters may be applied in either order. */
  lemma {:induction false} FilterCommutes<T>(s: seq<T>, f: T -> bool, g: T -> bool)
    ensures Filter(Filter(s, f), g) == Filter(Filter(s, g), f)
  {
    if |s| > 0 {
      FilterCommutes(s[1..], f, g);
    }
  }

  /** Replacing an element the filter drops by another it drops is invisible to it. */
  lemma {:induction false} FilterUpdateDropped<T>(s: seq<T>, i: nat, x: T, f: T -> bool)
    requires i < |s| && !f(s[i]) && !f(x)
    ensures Filter(s[i := x], f) == Filter(s, f)
  {
    if i > 0 {
      assert s[i := x][1..] == s[1..][i - 1 := x];
      FilterUpdateDropped(s[1..], i - 1, x, f);
    }
  }

  /** Repetition splits at any count. */
  lemma {:induction false} RepeatAdd<T>(x: T, m: nat, n: nat)
    ensures Repeat(x, m) + Repeat(x, n) == Repeat(x, m + n)
  {
    if m > 0 {
      RepeatAdd(x, m - 1, n);
      assert Repeat(x, m) + Repeat(x, n) == [x] + (Repeat(x, m - 1) + Repeat(x, n));
    }
  }

  /**
    Replacing the first element a filter keeps by another it keeps replaces
    the head of the filtered sequence.
   */
  lemma {:induction false} FilterUpdateFirst<T>(s: seq<T>, i: nat, x: T, f: T -> bool)
    requires i < |s| && f(s[i]) && f(x)
    requires forall j | 0 <= j < i :: !f(s[j])
    ensures |Filter(s, f)| > 0 && Filter(s, f)[0] == s[i]
    ensures Filter(s[i := x], f) == Filter(s, f)[0 := x]
  {
    if i == 0 {
      assert s[i := x] == [x] + s[1..];
    } else {
      assert s[i := x][1..] == s[1..][i - 1 := x];
      FilterUpdateFirst(s[1..], i - 1, x, f);
    }
  }

  /** Two kept positions make a filtered sequence of at least two elements. */
  lemma {:induction false} FilterKeepsTwo<T>(s: seq<T>, i: nat, j: nat, f: T -> bool)
    requires i < j < |s| && f(s[i]) && f(s[j])
    ensures |Filter(s, f)| >= 2
  {
    if i == 0 {
      assert s[1..][j - 1] == s[j];
      FilterMembers(s[1..], f);
      assert s[j] in Filter(s[1..], f);
    } else {
      FilterKeepsTwo(s[1..], i - 1, j - 1, f);
    }
  }
}
