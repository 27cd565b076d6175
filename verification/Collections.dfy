/** Small shared vocabulary: optional values, results, distinct sequences and
    the two orders Python's `sorted` uses here (code points and integers). */
module Collections {

  datatype Option<+T> = None | Some(value: T)

  datatype Result<+T, +E> = Ok(value: T) | Err(error: E)

  ghost predicate Distinct<T>(s: seq<T>) {
    forall i, j :: 0 <= i < j < |s| ==> s[i] != s[j]
  }

  function Elements<T>(s: seq<T>): set<T> {
    set x | x in s
  }

  function Max(a: int, b: int): int {
    if a < b then b else a
  }

  function Min(a: int, b: int): int {
    if a < b then a else b
  }

  // ----- strings by code point -----

  predicate StrLe(a: string, b: string) {
    a == [] || (b != [] && (a[0] < b[0] || (a[0] == b[0] && StrLe(a[1..], b[1..]))))
  }

  ghost predicate StrictlySorted(s: seq<string>) {
    forall i, j :: 0 <= i < j < |s| ==> s[i] != s[j] && StrLe(s[i], s[j])
  }

  lemma {:induction false} StrLeTotal(a: string, b: string)
    ensures StrLe(a, b) || StrLe(b, a)
  {
    if a != [] && b != [] && a[0] == b[0] {
      StrLeTotal(a[1..], b[1..]);
    }
  }

  lemma {:induction false} StrLeTransitive(a: string, b: string, c: string)
    requires StrLe(a, b) && StrLe(b, c)
    ensures StrLe(a, c)
  {
    if a != [] && a[0] == b[0] && b[0] == c[0] {
      StrLeTransitive(a[1..], b[1..], c[1..]);
    }
  }

  /** Inserts `x`, which must be new, into a strictly sorted sequence. */
  function Insert(x: string, s: seq<string>): (r: seq<string>)
    requires StrictlySorted(s) && x !in s
    ensures StrictlySorted(r)
    ensures Elements(r) == Elements(s) + {x} && |r| == |s| + 1
  {
    if s == [] then [x]
    else if StrLe(x, s[0]) then
      assert forall j :: 0 < j < |s| ==> StrLe(x, s[j]) by {
        forall j | 0 < j < |s| ensures StrLe(x, s[j]) { StrLeTransitive(x, s[0], s[j]); }
      }
      [x] + s
    else
      StrLeTotal(x, s[0]);
      var rest := Insert(x, s[1..]);
      assert s == [s[0]] + s[1..];
      assert forall j :: 0 <= j < |rest| ==> s[0] != rest[j] && StrLe(s[0], rest[j]) by {
        forall j | 0 <= j < |rest| ensures s[0] != rest[j] && StrLe(s[0], rest[j]) {
          assert rest[j] in Elements(s[1..]) + {x};
        }
      }
      [s[0]] + rest
  }

  /** `sorted(...)` of a set of strings. */
  method SortedSet(s: set<string>) returns (r: seq<string>)
    ensures StrictlySorted(r) && Elements(r) == s && |r| == |s|
  {
    r := [];
    var rest := s;
    while rest != {}
      invariant StrictlySorted(r) && Elements(r) + rest == s && Elements(r) !! rest && |r| + |rest| == |s|
      decreases |rest|
    {
      var x :| x in rest;
      assert x !in Elements(r);
      r := Insert(x, r);
      rest := rest - {x};
    }
  }

  // ----- natural numbers -----

  ghost predicate Ascending(s: seq<nat>) {
    forall i, j :: 0 <= i < j < |s| ==> s[i] < s[j]
  }

  function InsertNat(x: nat, s: seq<nat>): seq<nat> {
    if s == [] || x < s[0] then [x] + s else [s[0]] + InsertNat(x, s[1..])
  }

  lemma {:induction false} InsertNatKeeps(x: nat, s: seq<nat>)
    requires Ascending(s) && x !in s
    ensures Ascending(InsertNat(x, s)) && forall y :: y in InsertNat(x, s) <==> y == x || y in s
  {
    if s != [] && s[0] < x {
      assert s == [s[0]] + s[1..];
      InsertNatKeeps(x, s[1..]);
      var rest := InsertNat(x, s[1..]);
      forall j | 0 <= j < |rest| ensures s[0] < rest[j] {
        assert rest[j] in rest;
      }
    }
  }

  /** `list.sort()` on distinct numbers. */
  method SortNats(s: seq<nat>) returns (r: seq<nat>)
    requires Distinct(s)
    ensures Ascending(r) && forall y :: y in r <==> y in s
  {
    r := [];
    for i := 0 to |s|
      invariant Ascending(r) && forall y :: y in r <==> y in s[..i]
    {
      assert s[..i + 1] == s[..i] + [s[i]];
      InsertNatKeeps(s[i], r);
      r := InsertNat(s[i], r);
    }
    assert s[..|s|] == s;
  }
}
