/** Option and Result, used for the nil pointers and error returns of the source. */
module Base {

  datatype Option<+T> = None | Some(value: T)

  datatype Result<+T, +E> = Ok(value: T) | Err(error: E)

  /** The concatenation of a list of strings, in order. */
  function Concat(parts: seq<string>): string {
    if parts == [] then "" else Concat(parts[..|parts| - 1]) + parts[|parts| - 1]
  }

  lemma {:induction false} ConcatAppends(a: seq<string>, b: seq<string>)
    ensures Concat(a + b) == Concat(a) + Concat(b)
  {
    if b == [] {
      assert a + b == a;
    } else {
      ConcatAppends(a, b[..|b| - 1]);
      assert (a + b)[..|a + b| - 1] == a + b[..|b| - 1];
    }
  }

  lemma AppendIsAssociative<T>(a: seq<T>, b: seq<T>, c: seq<T>)
    ensures a + (b + c) == a + b + c
  { }

  /** Two maps that may differ only at the keys in `ks`. */
  ghost predicate SameExcept<K(!new), V(!new)>(m: map<K, V>, n: map<K, V>, ks: set<K>) {
    && (forall k | k in m && k !in ks :: k in n && n[k] == m[k])
    && (forall k | k in n && k !in ks :: k in m)
  }

  lemma SubmapIsNoLarger<K, V>(m: map<K, V>, n: map<K, V>)
    requires m.Keys <= n.Keys
    ensures |m| <= |n|
  {
    SubsetIsNoLarger(m.Keys, n.Keys);
  }

  lemma {:induction false} SubsetIsNoLarger<A>(s: set<A>, t: set<A>)
    requires s <= t
    ensures |s| <= |t|
  {
    if s != {} {
      var a :| a in s;
      SubsetIsNoLarger(s - {a}, t - {a});
    }
  }

  /** The image of a finite set is no larger than the set. */
  lemma {:induction false} ImageIsNoLarger<A, B>(f: map<A, B>, image: set<B>)
    requires image <= f.Values
    ensures |image| <= |f|
  {
    if f == map[] {
      assert image == {};
    } else {
      var a :| a in f;
      var g := f - {a};
      assert f.Values <= g.Values + {f[a]} by {
        forall b | b in f.Values ensures b in g.Values + {f[a]} {
          var k :| k in f && f[k] == b;
          if k != a { assert k in g && g[k] == b; }
        }
      }
      ImageIsNoLarger(g, image - {f[a]});
      assert |f| == |g| + 1 by { assert f.Keys == g.Keys + {a}; }
      assert image <= (image - {f[a]}) + {f[a]};
    }
  }
}
