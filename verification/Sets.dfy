/** Sizes of finite sets. */
module Sets {
  ghost function Upto(n: nat): (s: set<nat>)
    ensures |s| == n
    ensures forall i :: i in s <==> 0 <= i < n
  {
    if n == 0 then {} else Upto(n - 1) + {n - 1}
  }

  lemma {:induction false} SubsetSize<T>(a: set<T>, b: set<T>)
    requires a <= b
    ensures |a| <= |b|
    ensures |a| == |b| ==> a == b
    decreases |a|
  {
    if a != {} {
      var x :| x in a;
      SubsetSize(a - {x}, b - {x});
      assert a == a - {x} + {x} && b == b - {x} + {x};
    } else if |b| == 0 {
      assert b == {};
    }
  }

  ghost function Image(s: set<nat>, m: map<nat, nat>): (r: set<nat>) {
    set x | x in s && x in m :: m[x]
  }

  lemma {:induction false} ImageSize(s: set<nat>, m: map<nat, nat>)
    ensures |Image(s, m)| <= |s|
    decreases |s|
  {
    if s != {} {
      var x :| x in s;
      ImageSize(s - {x}, m);
      if x in m {
        assert Image(s, m) == Image(s - {x}, m) + {m[x]};
      } else {
        assert Image(s, m) == Image(s - {x}, m);
      }
    }
  }
}
