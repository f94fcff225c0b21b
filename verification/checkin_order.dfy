/**
 * Ordering by check-in time: the stable sort behind LINQ's
 * `OrderBy(v => v.checkInDate)`, as an insertion sort over sequences.
 * Stability is stated per timestamp: for every time `t`, the vehicles
 * checked in at `t` appear in the output in the same order as in the input.
 */
module CheckInOrder {
  import opened Vehicles

  /** Check-in times never decrease from left to right. */
  predicate Sorted(s: seq<Vehicle>) {
    forall i, j :: 0 <= i < j < |s| ==> s[i].checkIn <= s[j].checkIn
  }

  /** The vehicles of `s` checked in at time `t`, in their order in `s`. */
  function CheckedInAt(s: seq<Vehicle>, t: int): seq<Vehicle>
    decreases |s|
  {
    if s == [] then []
    else (if s[0].checkIn == t then [s[0]] else []) + CheckedInAt(s[1..], t)
  }

  /** `r` orders `s` by check-in time and keeps vehicles with equal times in their order in `s`. */
  ghost predicate StablySorts(r: seq<Vehicle>, s: seq<Vehicle>) {
    && Sorted(r)
    && multiset(r) == multiset(s)
    && forall t :: CheckedInAt(r, t) == CheckedInAt(s, t)
  }

  /** Places `x` in front of the first vehicle of `s` that was checked in no earlier than `x`. */
  function Insert(x: Vehicle, s: seq<Vehicle>): seq<Vehicle>
    decreases |s|
  {
    if s == [] || x.checkIn <= s[0].checkIn then [x] + s
    else [s[0]] + Insert(x, s[1..])
  }

  lemma {:induction false} InsertPermutes(x: Vehicle, s: seq<Vehicle>)
    ensures multiset(Insert(x, s)) == multiset(s) + multiset{x}
    decreases |s|
  {
    if s != [] && x.checkIn > s[0].checkIn {
      InsertPermutes(x, s[1..]);
      assert s == [s[0]] + s[1..];
    }
  }

  lemma {:induction false} InsertSorted(x: Vehicle, s: seq<Vehicle>)
    requires Sorted(s)
    ensures Sorted(Insert(x, s))
    decreases |s|
  {
    if s != [] && x.checkIn > s[0].checkIn {
      var t := s[1..];
      InsertSorted(x, t);
      InsertPermutes(x, t);
      var r := Insert(x, t);
      forall k | 0 <= k < |r|
        ensures s[0].checkIn <= r[k].checkIn
      {
        assert r[k] in multiset(r);
        assert r[k] in multiset(t) || r[k] == x;
      }
    }
  }

  /** Inserting `x` changes no time's group except by putting `x` at its head. */
  lemma {:induction false} InsertStable(x: Vehicle, s: seq<Vehicle>, t: int)
    requires Sorted(s)
    ensures CheckedInAt(Insert(x, s), t) == CheckedInAt([x] + s, t)
    decreases |s|
  {
    if s != [] && x.checkIn > s[0].checkIn {
      var rest := s[1..];
      InsertStable(x, rest, t);
      assert ([s[0]] + Insert(x, rest))[1..] == Insert(x, rest);
      assert ([x] + s)[1..] == s;
      assert ([x] + rest)[1..] == rest;
    }
  }

  /** Inserting `x` into a stable ordering of `s` gives a stable ordering of `[x] + s`. */
  lemma InsertExtendsStableOrder(x: Vehicle, s: seq<Vehicle>, r: seq<Vehicle>)
    requires StablySorts(r, s)
    ensures StablySorts(Insert(x, r), [x] + s)
  {
    InsertSorted(x, r);
    InsertPermutes(x, r);
    forall t
      ensures CheckedInAt(Insert(x, r), t) == CheckedInAt([x] + s, t)
    {
      InsertStable(x, r, t);
      assert ([x] + r)[1..] == r;
      assert ([x] + s)[1..] == s;
    }
  }

  /** Insertion sort: each vehicle is inserted into the sorted remainder. */
  function SortByCheckIn(s: seq<Vehicle>): (r: seq<Vehicle>)
    ensures StablySorts(r, s)
    decreases |s|
  {
    if s == [] then []
    else
      var rest := SortByCheckIn(s[1..]);
      InsertExtendsStableOrder(s[0], s[1..], rest);
      assert s == [s[0]] + s[1..];
      Insert(s[0], rest)
  }

  /** The head is the first vehicle of its own time group. */
  lemma HeadStartsItsGroup(s: seq<Vehicle>)
    requires s != []
    ensures CheckedInAt(s, s[0].checkIn) == [s[0]] + CheckedInAt(s[1..], s[0].checkIn)
  {
  }

  /** A vehicle appears in its own time group. */
  lemma {:induction false} InOwnGroup(s: seq<Vehicle>, k: nat)
    requires k < |s|
    ensures CheckedInAt(s, s[k].checkIn) != []
    decreases |s|
  {
    if k > 0 {
      InOwnGroup(s[1..], k - 1);
      assert s[1..][k - 1] == s[k];
    }
  }

  /** In a sorted sequence, a non-empty time group lies no earlier than the head. */
  lemma {:induction false} GroupNotBeforeHead(s: seq<Vehicle>, t: int)
    requires Sorted(s) && s != []
    requires CheckedInAt(s, t) != []
    ensures s[0].checkIn <= t
    decreases |s|
  {
    if s[0].checkIn != t {
      var rest := s[1..];
      assert CheckedInAt(s, t) == CheckedInAt(rest, t);
      GroupNotBeforeHead(rest, t);
    }
  }

  /** Sequences with the same head that agree on every time group agree on every group of their tails. */
  lemma TailsAgree(a: seq<Vehicle>, b: seq<Vehicle>)
    requires a != [] && b != [] && a[0] == b[0]
    requires forall t :: CheckedInAt(a, t) == CheckedInAt(b, t)
    ensures forall t :: CheckedInAt(a[1..], t) == CheckedInAt(b[1..], t)
  {
    forall t
      ensures CheckedInAt(a[1..], t) == CheckedInAt(b[1..], t)
    {
      var ta, tb := CheckedInAt(a[1..], t), CheckedInAt(b[1..], t);
      assert CheckedInAt(a, t) == CheckedInAt(b, t);
      if a[0].checkIn == t {
        assert ([a[0]] + ta)[1..] == ta;
        assert ([b[0]] + tb)[1..] == tb;
      } else {
        assert CheckedInAt(a, t) == ta && CheckedInAt(b, t) == tb;
      }
    }
  }

  /** If `b`'s head time has a group in sorted `a`, `a`'s head is no later. */
  lemma HeadNoLater(a: seq<Vehicle>, b: seq<Vehicle>)
    requires a != [] && b != [] && Sorted(a)
    requires CheckedInAt(a, b[0].checkIn) == CheckedInAt(b, b[0].checkIn)
    ensures a[0].checkIn <= b[0].checkIn
  {
    InOwnGroup(b, 0);
    GroupNotBeforeHead(a, b[0].checkIn);
  }

  /** Two non-empty sorted sequences that agree on every time group start with the same vehicle. */
  lemma HeadsAgree(a: seq<Vehicle>, b: seq<Vehicle>)
    requires a != [] && b != [] && Sorted(a) && Sorted(b)
    requires forall t :: CheckedInAt(a, t) == CheckedInAt(b, t)
    ensures a[0] == b[0]
  {
    HeadNoLater(a, b);
    HeadNoLater(b, a);
    var m := a[0].checkIn;
    HeadStartsItsGroup(a);
    HeadStartsItsGroup(b);
    assert CheckedInAt(a, m)[0] == a[0];
    assert CheckedInAt(b, m)[0] == b[0];
  }

  /**
   * The stable order is unique: two sorted sequences that agree on every
   * time group are equal. So `StablySorts` pins down the sort's output.
   */
  lemma {:induction false} StableSortUnique(a: seq<Vehicle>, b: seq<Vehicle>)
    requires Sorted(a) && Sorted(b)
    requires forall t :: CheckedInAt(a, t) == CheckedInAt(b, t)
    ensures a == b
    decreases |a|
  {
    if a == [] {
      if b != [] {
        InOwnGroup(b, 0);
      }
    } else if b == [] {
      InOwnGroup(a, 0);
    } else {
      HeadsAgree(a, b);
      TailsAgree(a, b);
      StableSortUnique(a[1..], b[1..]);
      assert a == [a[0]] + a[1..];
      assert b == [b[0]] + b[1..];
    }
  }

  /** Any stable ordering of `s` by check-in time is the insertion sort's output. */
  lemma SortByCheckInIsTheStableSort(s: seq<Vehicle>, r: seq<Vehicle>)
    requires StablySorts(r, s)
    ensures r == SortByCheckIn(s)
  {
    StableSortUnique(r, SortByCheckIn(s));
  }
}
