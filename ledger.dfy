/**
 * The folds the dashboard applies to lists of transactions: `filter`,
 * the `reduce` that sums amounts, the selected-month filter, the
 * per-category `Record` accumulator and the "recent" list.
 */
module Ledger {
  import opened Calendar
  import opened Entities

  /** `s.filter(p)`. */
  function Where<T(!new)>(s: seq<T>, p: T -> bool): (r: seq<T>)
    ensures |r| <= |s|
    ensures forall x :: x in r <==> x in s && p(x)
  {
    if s == [] then [] else Where(s[..|s| - 1], p) + (if p(s[|s| - 1]) then [s[|s| - 1]] else [])
  }

  lemma {:induction false} WhereAppend<T(!new)>(a: seq<T>, b: seq<T>, p: T -> bool)
    ensures Where(a + b, p) == Where(a, p) + Where(b, p)
  {
    if b != [] {
      assert (a + b)[..|a + b| - 1] == a + b[..|b| - 1];
      WhereAppend(a, b[..|b| - 1], p);
    } else {
      assert a + b == a;
    }
  }

  /** Two filters commute. */
  lemma {:induction false} WhereCommutes<T(!new)>(s: seq<T>, p: T -> bool, q: T -> bool)
    ensures Where(Where(s, p), q) == Where(Where(s, q), p)
  {
    if s != [] {
      var init := s[..|s| - 1];
      var x := s[|s| - 1];
      WhereCommutes(init, p, q);
      WhereAppend(Where(init, p), if p(x) then [x] else [], q);
      WhereAppend(Where(init, q), if q(x) then [x] else [], p);
      assert Where([x], q) == (if q(x) then [x] else []) by { assert [x][..0] == []; }
      assert Where([x], p) == (if p(x) then [x] else []) by { assert [x][..0] == []; }
    }
  }

  /** A filter every element passes keeps the whole list. */
  lemma {:induction false} WhereKeepsAll<T(!new)>(s: seq<T>, p: T -> bool)
    requires forall i :: 0 <= i < |s| ==> p(s[i])
    ensures Where(s, p) == s
  {
    if s != [] {
      var init, last := s[..|s| - 1], s[|s| - 1];
      assert s == init + [last];
      forall i | 0 <= i < |init| ensures p(init[i]) {
        assert init[i] == s[i];
      }
      WhereKeepsAll(init, p);
      assert p(last);
    }
  }

  /** `s.reduce((sum, t) => sum + t.amount, 0)`. */
  function Total(s: seq<Transaction>): real {
    if s == [] then 0.0 else Total(s[..|s| - 1]) + s[|s| - 1].amount
  }

  lemma {:induction false} TotalAppend(a: seq<Transaction>, b: seq<Transaction>)
    ensures Total(a + b) == Total(a) + Total(b)
  {
    if b != [] {
      assert (a + b)[..|a + b| - 1] == a + b[..|b| - 1];
      TotalAppend(a, b[..|b| - 1]);
    } else {
      assert a + b == a;
    }
  }

  lemma TotalSingle(t: Transaction)
    ensures Total([t]) == t.amount
  {
    assert [t][..0] == [];
  }

  /** Appending one transaction to a list adds its amount to a filtered total exactly when it passes the filter. */
  lemma TotalWhereSnoc(s: seq<Transaction>, t: Transaction, p: Transaction -> bool)
    ensures Total(Where(s + [t], p)) == Total(Where(s, p)) + (if p(t) then t.amount else 0.0)
  {
    assert (s + [t])[..|s|] == s;
    if p(t) {
      TotalAppend(Where(s, p), [t]);
      TotalSingle(t);
    } else {
      assert Where(s, p) + [] == Where(s, p);
    }
  }

  /** A total of non-negative amounts is non-negative. */
  lemma {:induction false} TotalNonNegative(s: seq<Transaction>)
    requires forall i :: 0 <= i < |s| ==> s[i].amount >= 0.0
    ensures Total(s) >= 0.0
  {
    if s != [] {
      TotalNonNegative(s[..|s| - 1]);
    }
  }

  /** A filtered total is non-negative over non-negative amounts, and zero when nothing passes the filter. */
  lemma TotalWhereBounds(s: seq<Transaction>, p: Transaction -> bool)
    ensures (forall t :: t in s ==> t.amount >= 0.0) ==> Total(Where(s, p)) >= 0.0
    ensures (forall t :: t in s ==> !p(t)) ==> Total(Where(s, p)) == 0.0
  {
    var w := Where(s, p);
    if forall t :: t in s ==> t.amount >= 0.0 {
      forall i | 0 <= i < |w| ensures w[i].amount >= 0.0 {
        assert w[i] in w;
      }
      TotalNonNegative(w);
    }
    if forall t :: t in s ==> !p(t) {
      WhereEmpty(s, p);
    }
  }

  /** A filter keeps nothing exactly when no element passes it. */
  lemma WhereEmpty<T(!new)>(s: seq<T>, p: T -> bool)
    ensures Where(s, p) == [] <==> forall x :: x in s ==> !p(x)
  {
    var w := Where(s, p);
    if w != [] {
      assert w[0] in w;
    } else {
      assert forall x :: x in s && p(x) ==> x in w;
    }
  }

  predicate InMonth(t: Transaction, year: int, month: int) {
    t.date.month == month && t.date.year == year
  }

  /** The transactions whose date falls in the selected month and year. */
  function MonthTransactions(s: seq<Transaction>, year: int, month: int): (r: seq<Transaction>)
    ensures forall t :: t in r <==> t in s && InMonth(t, year, month)
  {
    Where(s, (t: Transaction) => InMonth(t, year, month))
  }

  /** The total of the transactions dated in the selected month, as each section computes it. */
  function MonthTotal(s: seq<Transaction>, year: int, month: int): real {
    Total(MonthTransactions(s, year, month))
  }

  /** `s.slice().reverse()`. */
  function Reverse<T>(s: seq<T>): (r: seq<T>)
    ensures |r| == |s|
    ensures forall i :: 0 <= i < |s| ==> r[i] == s[|s| - 1 - i]
  {
    if s == [] then [] else [s[|s| - 1]] + Reverse(s[..|s| - 1])
  }

  /** `s.slice().reverse().slice(0, 5)`: the last five entries, last first. */
  function Recent<T>(s: seq<T>): (r: seq<T>)
    ensures |r| == if |s| < 5 then |s| else 5
    ensures forall i :: 0 <= i < |r| ==> r[i] == s[|s| - 1 - i]
  {
    var rev := Reverse(s);
    if |rev| <= 5 then rev else rev[..5]
  }

  /** One entry of a per-category `Record<string, number>`. */
  datatype Slice = Slice(name: string, value: real)

  /** `acc[category] = (acc[category] || 0) + amount` on an insertion-ordered record. */
  function AddToCategory(acc: seq<Slice>, category: string, amount: real): (r: seq<Slice>)
    ensures |r| == |acc| || |r| == |acc| + 1
    ensures forall i :: 0 <= i < |acc| ==> r[i].name == acc[i].name
  {
    if acc == [] then [Slice(category, amount)]
    else if acc[0].name == category then [Slice(category, acc[0].value + amount)] + acc[1..]
    else [acc[0]] + AddToCategory(acc[1..], category, amount)
  }

  /** The category record of a list of transactions, keys in first-seen order: each key once, the values adding up to the total. */
  function CategoryTotals(s: seq<Transaction>): (r: seq<Slice>)
    ensures DistinctNames(r)
    ensures SliceSum(r) == Total(s)
  {
    if s == [] then []
    else
      var before, t := CategoryTotals(s[..|s| - 1]), s[|s| - 1];
      AddToCategoryDistinct(before, t.category, t.amount);
      AddToCategorySum(before, t.category, t.amount);
      AddToCategory(before, t.category, t.amount)
  }

  function SliceSum(slices: seq<Slice>): real {
    if slices == [] then 0.0 else slices[0].value + SliceSum(slices[1..])
  }

  predicate DistinctNames(slices: seq<Slice>) {
    forall i, j :: 0 <= i < j < |slices| ==> slices[i].name != slices[j].name
  }

  function Names(slices: seq<Slice>): set<string> {
    set i | 0 <= i < |slices| :: slices[i].name
  }

  /** The value recorded under `name` (0 when absent, as `acc[name] || 0`). */
  function ValueOf(slices: seq<Slice>, name: string): real {
    if slices == [] then 0.0
    else if slices[0].name == name then slices[0].value
    else ValueOf(slices[1..], name)
  }

  lemma NamesCons(a: Slice, t: seq<Slice>)
    ensures Names([a] + t) == {a.name} + Names(t)
  {
    var r := [a] + t;
    forall x | x in Names(r) ensures x in {a.name} + Names(t) {
      var i :| 0 <= i < |r| && r[i].name == x;
      if i > 0 { assert r[i] == t[i - 1]; }
    }
    forall x | x in Names(t) ensures x in Names(r) {
      var i :| 0 <= i < |t| && t[i].name == x;
      assert r[i + 1] == t[i];
    }
    assert r[0].name == a.name;
  }

  lemma DistinctCons(a: Slice, t: seq<Slice>)
    ensures DistinctNames([a] + t) <==> a.name !in Names(t) && DistinctNames(t)
  {
    var r := [a] + t;
    if DistinctNames(r) {
      forall i, j | 0 <= i < j < |t| ensures t[i].name != t[j].name {
        assert t[i] == r[i + 1] && t[j] == r[j + 1];
      }
      forall j | 0 <= j < |t| ensures t[j].name != a.name {
        assert r[j + 1] == t[j] && r[0] == a;
      }
    }
    if a.name !in Names(t) && DistinctNames(t) {
      forall i, j | 0 <= i < j < |r| ensures r[i].name != r[j].name {
        assert r[j] == t[j - 1];
        if i == 0 {
          assert t[j - 1].name in Names(t);
        } else {
          assert r[i] == t[i - 1];
        }
      }
    }
  }

  lemma {:induction false} AddToCategoryNames(acc: seq<Slice>, category: string, amount: real)
    ensures Names(AddToCategory(acc, category, amount)) == Names(acc) + {category}
  {
    var r := AddToCategory(acc, category, amount);
    if acc == [] {
      assert r == [Slice(category, amount)] + [];
      NamesCons(Slice(category, amount), []);
    } else if acc[0].name == category {
      NamesCons(r[0], acc[1..]);
      NamesCons(acc[0], acc[1..]);
      assert acc == [acc[0]] + acc[1..];
    } else {
      AddToCategoryNames(acc[1..], category, amount);
      NamesCons(acc[0], AddToCategory(acc[1..], category, amount));
      NamesCons(acc[0], acc[1..]);
      assert acc == [acc[0]] + acc[1..];
    }
  }

  lemma {:induction false} AddToCategoryDistinct(acc: seq<Slice>, category: string, amount: real)
    requires DistinctNames(acc)
    ensures DistinctNames(AddToCategory(acc, category, amount))
  {
    var r := AddToCategory(acc, category, amount);
    if acc == [] {
    } else if acc[0].name == category {
      assert acc == [acc[0]] + acc[1..];
      DistinctCons(acc[0], acc[1..]);
      DistinctCons(r[0], acc[1..]);
    } else {
      assert acc == [acc[0]] + acc[1..];
      DistinctCons(acc[0], acc[1..]);
      AddToCategoryDistinct(acc[1..], category, amount);
      AddToCategoryNames(acc[1..], category, amount);
      DistinctCons(acc[0], AddToCategory(acc[1..], category, amount));
    }
  }

  lemma {:induction false} AddToCategorySum(acc: seq<Slice>, category: string, amount: real)
    ensures SliceSum(AddToCategory(acc, category, amount)) == SliceSum(acc) + amount
  {
    var r := AddToCategory(acc, category, amount);
    if acc == [] {
      assert r[1..] == [];
    } else if acc[0].name == category {
      assert r[1..] == acc[1..];
    } else {
      AddToCategorySum(acc[1..], category, amount);
      assert r[1..] == AddToCategory(acc[1..], category, amount);
    }
  }

  lemma {:induction false} AddToCategoryValue(acc: seq<Slice>, category: string, amount: real, c: string)
    ensures ValueOf(AddToCategory(acc, category, amount), c) == ValueOf(acc, c) + (if c == category then amount else 0.0)
  {
    var r := AddToCategory(acc, category, amount);
    if acc == [] {
      assert r[1..] == [];
    } else if acc[0].name == category {
      assert r[1..] == acc[1..];
    } else {
      AddToCategoryValue(acc[1..], category, amount, c);
      assert r[1..] == AddToCategory(acc[1..], category, amount);
    }
  }

  lemma CategoriesSnoc(init: seq<Transaction>, t: Transaction)
    ensures (set x | x in init + [t] :: x.category) == (set x | x in init :: x.category) + {t.category}
  {
  }

  /** The grouping is a partition of the list: keys are the categories seen, each once, and each value is that category's total. */
  lemma {:induction false} CategoryTotalsCorrect(s: seq<Transaction>)
    ensures DistinctNames(CategoryTotals(s))
    ensures Names(CategoryTotals(s)) == set t | t in s :: t.category
    ensures SliceSum(CategoryTotals(s)) == Total(s)
    ensures forall c :: ValueOf(CategoryTotals(s), c) == Total(Where(s, (t: Transaction) => t.category == c))
  {
    if s != [] {
      var init, t := s[..|s| - 1], s[|s| - 1];
      assert s == init + [t];
      CategoryTotalsCorrect(init);
      var before := CategoryTotals(init);
      assert CategoryTotals(s) == AddToCategory(before, t.category, t.amount);
      AddToCategoryDistinct(before, t.category, t.amount);
      AddToCategoryNames(before, t.category, t.amount);
      AddToCategorySum(before, t.category, t.amount);
      CategoriesSnoc(init, t);
      forall c ensures ValueOf(CategoryTotals(s), c) == Total(Where(s, (x: Transaction) => x.category == c)) {
        TotalWhereSnoc(init, t, (x: Transaction) => x.category == c);
        AddToCategoryValue(before, t.category, t.amount, c);
      }
    }
  }
}
