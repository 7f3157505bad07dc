// Types shared by the model's modules.
module Base {
  type Byte = b: int | 0 <= b < 256

  datatype Option<+T> = None | Some(value: T)

  // enum pwf_error, less the code only the error callback carries.
  datatype Code =
    | Ok
    | InvalidArg
    | ConnectFailed
    | InvalidFormat
    | NotConfigured
    | InCallback
    | NotFound
    | Timeout
    | NoMemory

  // The range of the 64-bit counters and of size_t.
  const WORD: nat := 0x1_0000_0000_0000_0000

  function Min(a: nat, b: nat): nat {
    if a <= b then a else b
  }

  function Listed<T>(o: Option<T>): seq<T> {
    if o.Some? then [o.value] else []
  }

  function Flatten<T>(parts: seq<seq<T>>): seq<T> {
    if parts == [] then [] else parts[0] + Flatten(parts[1..])
  }

  // ---------------------------------------------------------------- selections

  // How many of the first n are there.
  function Count<T>(s: seq<Option<T>>, n: nat): (c: nat)
    requires n <= |s|
    ensures c <= n
  {
    if n == 0 then 0 else Count(s, n - 1) + if s[n - 1].Some? then 1 else 0
  }

  // `r` is all there is in `s`, in its order: what has k before it is the k-th.
  ghost predicate InOrder<T>(r: seq<T>, s: seq<Option<T>>) {
    && |r| == Count(s, |s|)
    && forall i :: 0 <= i < |s| && s[i].Some? ==> Count(s, i) < |r| && r[Count(s, i)] == s[i].value
  }

  lemma {:induction false} CountOfPrefix<T>(s: seq<Option<T>>, t: seq<Option<T>>, n: nat)
    requires n <= |s|
    ensures Count(s + t, n) == Count(s, n)
  {
    if n > 0 {
      CountOfPrefix(s, t, n - 1);
      assert (s + t)[n - 1] == s[n - 1];
    }
  }

  lemma InOrderSnoc<T>(r: seq<T>, s: seq<Option<T>>, o: Option<T>)
    requires InOrder(r, s)
    ensures InOrder(r + Listed(o), s + [o])
  {
    var q := s + [o];
    forall i | 0 <= i <= |s| ensures Count(q, i) == Count(s, i) {
      CountOfPrefix(s, [o], i);
    }
    assert Count(q, |q|) == Count(s, |s|) + if o.Some? then 1 else 0;
    forall i | 0 <= i < |s| ensures q[i] == s[i] {
    }
  }

  lemma OneInOrder<T>(o: Option<T>)
    ensures InOrder(Listed(o), [o])
  {
    InOrderSnoc([], [], o);
    assert [] + [o] == [o] && [] + Listed(o) == Listed(o);
  }

  lemma {:induction false} InOrderJoin<T>(a: seq<T>, s: seq<Option<T>>, b: seq<T>, t: seq<Option<T>>)
    requires InOrder(a, s) && InOrder(b, t)
    ensures InOrder(a + b, s + t)
  {
    forall i | 0 <= i <= |s| ensures Count(s + t, i) == Count(s, i) {
      CountOfPrefix(s, t, i);
    }
    forall i | 0 <= i <= |t| ensures Count(s + t, |s| + i) == Count(s, |s|) + Count(t, i) {
      CountJoin(s, t, i);
    }
    forall i | 0 <= i < |s + t| && (s + t)[i].Some?
      ensures Count(s + t, i) < |a + b| && (a + b)[Count(s + t, i)] == (s + t)[i].value
    {
      if i >= |s| {
        assert (s + t)[i] == t[i - |s|];
        assert Count(s + t, |s| + (i - |s|)) == Count(s, |s|) + Count(t, i - |s|);
      }
    }
    assert Count(s + t, |s| + |t|) == |a| + |b|;
  }

  lemma {:induction false} CountJoin<T>(s: seq<Option<T>>, t: seq<Option<T>>, n: nat)
    requires n <= |t|
    ensures Count(s + t, |s| + n) == Count(s, |s|) + Count(t, n)
  {
    if n == 0 {
      CountOfPrefix(s, t, |s|);
    } else {
      CountJoin(s, t, n - 1);
      assert (s + t)[|s| + n - 1] == t[n - 1];
    }
  }

  lemma {:induction false} Counted<T>(s: seq<Option<T>>, n: nat, k: nat) returns (i: nat)
    requires n <= |s| && k < Count(s, n)
    ensures i < n && s[i].Some? && Count(s, i) == k
  {
    if Count(s, n - 1) == k {
      i := n - 1;
    } else {
      i := Counted(s, n - 1, k);
    }
  }

  // There is only one such list.
  lemma InOrderIsUnique<T>(r: seq<T>, q: seq<T>, s: seq<Option<T>>)
    requires InOrder(r, s) && InOrder(q, s)
    ensures r == q
  {
    forall k | 0 <= k < |r| ensures r[k] == q[k] {
      var i := Counted(s, |s|, k);
    }
  }

  lemma {:induction false} SameCount<T, U>(s: seq<Option<T>>, t: seq<Option<U>>, n: nat)
    requires n <= |s| == |t| && forall i :: 0 <= i < |s| ==> (s[i].Some? <==> t[i].Some?)
    ensures Count(s, n) == Count(t, n)
  {
    if n > 0 {
      SameCount(s, t, n - 1);
    }
  }

  lemma InOrderMapped<T, U>(r: seq<T>, s: seq<Option<T>>, q: seq<U>, t: seq<Option<U>>, f: T -> U)
    requires InOrder(r, s) && |q| == |r| && |t| == |s|
    requires forall k :: 0 <= k < |q| ==> q[k] == f(r[k])
    requires forall i :: 0 <= i < |t| ==> t[i] == if s[i].Some? then Some(f(s[i].value)) else None
    ensures InOrder(q, t)
  {
    forall i | 0 <= i <= |s| ensures Count(s, i) == Count(t, i) {
      SameCount(s, t, i);
    }
  }

  function Lists<T>(s: seq<Option<T>>): (parts: seq<seq<T>>)
    ensures |parts| == |s|
  {
    seq(|s|, i requires 0 <= i < |s| => Listed(s[i]))
  }

  lemma {:induction false} FlattenedInOrder<T>(s: seq<Option<T>>)
    ensures InOrder(Flatten(Lists(s)), s)
  {
    if s != [] {
      FlattenedInOrder(s[1..]);
      assert Lists(s)[1..] == Lists(s[1..]);
      assert Flatten(Lists(s)) == Listed(s[0]) + Flatten(Lists(s[1..]));
      hide InOrder, Flatten, Listed;
      OneInOrder(s[0]);
      InOrderJoin(Listed(s[0]), [s[0]], Flatten(Lists(s[1..])), s[1..]);
      assert [s[0]] + s[1..] == s;
    }
  }

  // Sequence facts, stated apart from what the elements are.
  lemma LastSplit<T>(s: seq<T>)
    requires s != []
    ensures s == s[..|s| - 1] + [s[|s| - 1]]
  {
  }

  lemma PrefixOfPrefix<T>(s: seq<T>, n: nat, k: nat)
    requires k <= n <= |s|
    ensures s[..n][..k] == s[..k]
  {
  }

  lemma Associative<T>(a: seq<T>, b: seq<T>, c: seq<T>)
    ensures (a + b) + c == a + (b + c)
  {
  }

  lemma Regroup<T>(a: seq<T>, b: seq<T>)
    requires b != []
    ensures var n := |b| - 1; a + b == (a + b[..n]) + [b[n]] && b == b[..n] + [b[n]]
  {
  }
}
