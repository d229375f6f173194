/** Sorted host lists without duplicates, as heimdal.Create makes them
    (internal/heimdal/metadata.go). */
module HostLists {

  /** The order of sort.Strings: by bytes. */
  predicate Less(a: string, b: string) {
    if b == "" then false
    else if a == "" then true
    else a[0] < b[0] || (a[0] == b[0] && Less(a[1..], b[1..]))
  }

  /** `a` and `b` agree up to position k, where `a` ends or has the lower byte. */
  ghost predicate DecidedAt(a: string, b: string, k: nat) {
    k <= |a| && k < |b| && a[..k] == b[..k] && (k == |a| || a[k] < b[k])
  }

  lemma DecidedPastFirst(a: string, b: string, k: nat)
    requires a != "" && b != "" && a[0] == b[0]
    ensures DecidedAt(a, b, k + 1) <==> DecidedAt(a[1..], b[1..], k)
  {
    if k < |a| && k + 1 < |b| {
      assert a[..k + 1] == [a[0]] + a[1..][..k];
      assert b[..k + 1] == [b[0]] + b[1..][..k];
    }
  }

  /** A string is less than another exactly if it is a proper prefix of it or
      has the lower byte where they first differ. */
  lemma {:induction false} LessExactly(a: string, b: string)
    ensures Less(a, b) <==> exists k: nat :: DecidedAt(a, b, k)
  {
    if b == "" {
      assert !Less(a, b);
    } else if a == "" || a[0] < b[0] {
      assert DecidedAt(a, b, 0);
    } else if a[0] == b[0] {
      LessExactly(a[1..], b[1..]);
      assert !DecidedAt(a, b, 0);
      if Less(a, b) {
        var k: nat :| DecidedAt(a[1..], b[1..], k);
        DecidedPastFirst(a, b, k);
      }
      if k: nat :| DecidedAt(a, b, k) {
        DecidedPastFirst(a, b, k - 1);
      }
    } else {
      forall k: nat ensures !DecidedAt(a, b, k) {
        if 0 < k <= |a| && k < |b| {
          assert a[..k][0] == a[0] && b[..k][0] == b[0];
        }
      }
    }
  }

  predicate AtMost(a: string, b: string) {
    a == b || Less(a, b)
  }

  lemma {:induction false} LessIsStrict(a: string, b: string)
    requires Less(a, b)
    ensures a != b && !Less(b, a)
  {
    if a != "" && a[0] == b[0] { LessIsStrict(a[1..], b[1..]); }
  }

  lemma {:induction false} LessIsTotal(a: string, b: string)
    ensures Less(a, b) || a == b || Less(b, a)
  {
    if a != "" && b != "" && a[0] == b[0] {
      LessIsTotal(a[1..], b[1..]);
      assert a == [a[0]] + a[1..] && b == [b[0]] + b[1..];
    }
  }

  lemma {:induction false} LessIsTransitive(a: string, b: string, c: string)
    requires Less(a, b) && Less(b, c)
    ensures Less(a, c)
  {
    if a != "" && a[0] == b[0] && b[0] == c[0] { LessIsTransitive(a[1..], b[1..], c[1..]); }
  }

  lemma AtMostThenLess(a: string, b: string, c: string)
    requires AtMost(a, b) && AtMost(b, c) && (a != b || b != c)
    ensures Less(a, c)
  {
    if a != b && b != c { LessIsTransitive(a, b, c); }
  }

  ghost predicate Sorted(s: seq<string>) {
    forall i, j :: 0 <= i < j < |s| ==> AtMost(s[i], s[j])
  }

  ghost predicate StrictlySorted(s: seq<string>) {
    forall i, j :: 0 <= i < j < |s| ==> Less(s[i], s[j])
  }

  // ---------------------------------------------------------------- sorting

  function Insert(x: string, s: seq<string>): (r: seq<string>)
    ensures multiset(r) == multiset(s) + multiset{x}
  {
    if s == [] || AtMost(x, s[0]) then [x] + s
    else
      assert s == [s[0]] + s[1..];
      [s[0]] + Insert(x, s[1..])
  }

  /** sort.Strings */
  function Sort(s: seq<string>): (r: seq<string>)
    ensures multiset(r) == multiset(s)
  {
    if s == [] then []
    else
      assert s == [s[0]] + s[1..];
      Insert(s[0], Sort(s[1..]))
  }

  lemma {:induction false} InsertKeepsSorted(x: string, s: seq<string>)
    requires Sorted(s)
    ensures Sorted(Insert(x, s))
  {
    if s != [] {
      if AtMost(x, s[0]) {
        forall j | 0 <= j < |s| ensures AtMost(x, s[j]) {
          if x != s[0] && s[0] != s[j] { LessIsTransitive(x, s[0], s[j]); }
        }
      } else {
        LessIsTotal(x, s[0]);
        InsertKeepsSorted(x, s[1..]);
        var r := Insert(x, s[1..]);
        forall y | y in r ensures AtMost(s[0], y) {
          assert y in multiset(r);
          if y != x {
            assert y in s[1..];
            var j :| 0 <= j < |s[1..]| && s[1..][j] == y;
            assert AtMost(s[0], s[j + 1]);
          }
        }
      }
    }
  }

  lemma {:induction false} SortSorts(s: seq<string>)
    ensures Sorted(Sort(s))
  {
    if s != [] {
      SortSorts(s[1..]);
      InsertKeepsSorted(s[0], Sort(s[1..]));
    }
  }

  // -------------------------------------------------------------- duplicates

  /** A list without the elements equal to their predecessor. */
  function Dedup(s: seq<string>): (r: seq<string>)
    ensures |r| <= |s|
    ensures s != [] ==> r != [] && r[|r| - 1] == s[|s| - 1]
    ensures forall x :: x in r <==> x in s
  {
    if s == [] then []
    else
      var front := Dedup(s[..|s| - 1]);
      assert s == s[..|s| - 1] + [s[|s| - 1]];
      if front == [] || front[|front| - 1] != s[|s| - 1] then front + [s[|s| - 1]] else front
  }

  lemma {:induction false} DedupIsStrict(s: seq<string>)
    requires Sorted(s)
    ensures StrictlySorted(Dedup(s))
  {
    if s != [] {
      var last := s[|s| - 1];
      var front := Dedup(s[..|s| - 1]);
      DedupIsStrict(s[..|s| - 1]);
      if front != [] && front[|front| - 1] != last {
        assert AtMost(s[|s| - 2], last);
        forall i | 0 <= i < |front| ensures Less(front[i], last) {
          if i < |front| - 1 { AtMostThenLess(front[i], front[|front| - 1], last); }
        }
      }
    }
  }

  /** The loop of Create writes its result over the list it is still reading. */
  method DedupInPlace(routes: array<string>) returns (n: nat)
    modifies routes
    ensures n <= routes.Length && routes[..n] == Dedup(old(routes[..]))
  {
    n := 0;
    ghost var sorted := routes[..];
    for i := 0 to routes.Length
      invariant n <= i
      invariant routes[..n] == Dedup(sorted[..i])
      invariant routes[i..] == sorted[i..]
    {
      var host := routes[i];
      assert host == routes[i..][0] == sorted[i..][0] == sorted[i];
      assert sorted[..i + 1][..i] == sorted[..i];
      assert routes[i..][1..] == routes[i + 1..] && sorted[i..][1..] == sorted[i + 1..];
      if n == 0 || routes[n - 1] != host {
        ghost var kept := routes[..n];
        routes[n] := host;
        n := n + 1;
        assert routes[..n] == kept + [host];
      }
    }
    assert sorted[..routes.Length] == sorted;
  }

  function Canonical(hosts: seq<string>): seq<string> {
    Dedup(Sort(hosts))
  }

  /** The canonical list has the same hosts, strictly in order. */
  lemma CanonicalIsStrict(hosts: seq<string>)
    ensures StrictlySorted(Canonical(hosts))
    ensures forall x :: x in Canonical(hosts) <==> x in hosts
  {
    SortSorts(hosts);
    DedupIsStrict(Sort(hosts));
    forall x ensures x in Canonical(hosts) <==> x in hosts {
      assert x in Sort(hosts) <==> x in multiset(Sort(hosts));
      assert x in hosts <==> x in multiset(hosts);
    }
  }

  /** Two strictly sorted lists of the same hosts are the same list. */
  lemma {:induction false} SameHostsSameList(a: seq<string>, b: seq<string>)
    requires StrictlySorted(a) && StrictlySorted(b)
    requires forall x :: x in a <==> x in b
    ensures a == b
  {
    assert |a| > 0 ==> a[0] in b;
    assert |b| > 0 ==> b[0] in a;
    if a != [] && b != [] {
      SameFirst(a, b);
      forall x ensures x in a[1..] <==> x in b[1..] {
        InTail(a, x);
        InTail(b, x);
      }
      SameHostsSameList(a[1..], b[1..]);
      assert a == [a[0]] + a[1..] && b == [b[0]] + b[1..];
    }
  }

  lemma SameFirst(a: seq<string>, b: seq<string>)
    requires StrictlySorted(a) && StrictlySorted(b) && a != [] && b != []
    requires forall x :: x in a <==> x in b
    ensures a[0] == b[0]
  {
    assert a[0] in b && b[0] in a;
    var j :| 0 <= j < |b| && b[j] == a[0];
    var k :| 0 <= k < |a| && a[k] == b[0];
    assert AtMost(b[0], a[0]) && AtMost(a[0], b[0]);
    if Less(a[0], b[0]) { LessIsStrict(a[0], b[0]); }
  }

  lemma InTail(s: seq<string>, x: string)
    requires StrictlySorted(s) && s != []
    ensures x in s[1..] <==> x in s && x != s[0]
  {
    assert s == [s[0]] + s[1..];
    forall i | 1 <= i < |s| ensures s[i] != s[0] {
      LessIsStrict(s[0], s[i]);
    }
  }

  /** The canonical list depends on the set of hosts alone. */
  lemma CanonicalIgnoresOrder(hosts: seq<string>, others: seq<string>)
    requires forall x :: x in hosts <==> x in others
    ensures Canonical(hosts) == Canonical(others)
  {
    CanonicalIsStrict(hosts);
    CanonicalIsStrict(others);
    SameHostsSameList(Canonical(hosts), Canonical(others));
  }
}
