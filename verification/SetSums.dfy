// Sums over finite sets, in no particular order: what a loop over an unordered container adds up.
module SetSums {
  ghost function Sum<T(!new)>(s: set<T>, f: T -> real): real {
    if s == {} then 0.0
    else var x :| x in s; f(x) + Sum(s - {x}, f)
  }

  lemma {:induction false} SumRemove<T(!new)>(s: set<T>, x: T, f: T -> real)
    requires x in s
    ensures Sum(s, f) == f(x) + Sum(s - {x}, f)
    decreases s
  {
    var y :| y in s && Sum(s, f) == f(y) + Sum(s - {y}, f);
    if y != x {
      SumRemove(s - {y}, x, f);
      SumRemove(s - {x}, y, f);
      assert s - {y} - {x} == s - {x} - {y};
    }
  }

  lemma SumInsert<T(!new)>(s: set<T>, x: T, f: T -> real)
    requires x !in s
    ensures Sum(s + {x}, f) == Sum(s, f) + f(x)
  {
    SumRemove(s + {x}, x, f);
    assert s + {x} - {x} == s;
  }

  ghost function Total<T(!new)>(s: set<T>, f: T -> int): int {
    if s == {} then 0
    else var x :| x in s; f(x) + Total(s - {x}, f)
  }

  lemma {:induction false} TotalRemove<T(!new)>(s: set<T>, x: T, f: T -> int)
    requires x in s
    ensures Total(s, f) == f(x) + Total(s - {x}, f)
    decreases s
  {
    var y :| y in s && Total(s, f) == f(y) + Total(s - {y}, f);
    if y != x {
      TotalRemove(s - {y}, x, f);
      TotalRemove(s - {x}, y, f);
      assert s - {y} - {x} == s - {x} - {y};
    }
  }

  lemma TotalInsert<T(!new)>(s: set<T>, x: T, f: T -> int)
    requires x !in s
    ensures Total(s + {x}, f) == Total(s, f) + f(x)
  {
    TotalRemove(s + {x}, x, f);
    assert s + {x} - {x} == s;
  }
}
