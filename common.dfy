/** Result and error types shared by every service, and the ordered listing of
    the integer keys of a repository. */
module Common {

  datatype Option<+T> = None | Some(value: T)

  /** The three ways a service call ends abnormally: the two application
      exceptions (NotFoundException, BadRequestException) and any runtime
      exception thrown by a collaborator (a repository save, the payment
      gateway, the template engine, the mail sender, the object mapper, or a
      null dereference). */
  datatype Error =
    | NotFound(message: string)
    | BadRequest(message: string)
    | Fault(message: string)

  datatype Result<+T> = Ok(value: T) | Err(error: Error) {
    predicate IsFailure() { Err? }

    function PropagateFailure<U>(): Result<U>
      requires Err?
    {
      Err(error)
    }

    function Extract(): T
      requires Ok?
    {
      value
    }
  }

  predicate Decreasing(r: seq<int>) {
    forall i, j :: 0 <= i < j < |r| ==> r[i] > r[j]
  }

  predicate Increasing(r: seq<int>) {
    forall i, j :: 0 <= i < j < |r| ==> r[i] < r[j]
  }

  lemma NonEmptyHasElement(s: set<int>)
    requires s != {}
    ensures exists y :: y in s
  {
    if forall y :: y !in s {
      assert false;
    }
  }

  /** A non-empty set of integers has a largest member: take any member and,
      if some are larger, look among those. */
  lemma {:induction false} MaxExists(s: set<int>)
    requires s != {}
    ensures exists k :: k in s && forall j :: j in s ==> j <= k
    decreases s
  {
    NonEmptyHasElement(s);
    var x :| x in s;
    var above := set j | j in s && j > x;
    if above == {} {
      forall j | j in s ensures j <= x {
        assert j !in above;
      }
    } else {
      assert x in s - above;
      MaxExists(above);
      var k :| k in above && forall j :: j in above ==> j <= k;
      forall j | j in s ensures j <= k {
        if j > x { assert j in above; }
      }
    }
  }

  /** A non-empty set of integers has a smallest member. */
  lemma {:induction false} MinExists(s: set<int>)
    requires s != {}
    ensures exists k :: k in s && forall j :: j in s ==> k <= j
    decreases s
  {
    NonEmptyHasElement(s);
    var x :| x in s;
    var below := set j | j in s && j < x;
    if below == {} {
      forall j | j in s ensures x <= j {
        assert j !in below;
      }
    } else {
      assert x in s - below;
      MinExists(below);
      var k :| k in below && forall j :: j in below ==> k <= j;
      forall j | j in s ensures k <= j {
        if j < x { assert j in below; }
      }
    }
  }

  /** The keys of a repository listed by id, highest first (Sort.by(DESC, "id")). */
  method KeysDescending(s: set<int>) returns (r: seq<int>)
    ensures Decreasing(r)
    ensures forall k :: k in r <==> k in s
    ensures |r| == |s|
  {
    r := [];
    var rest := s;
    while rest != {}
      invariant rest <= s
      invariant forall k :: k in r <==> k in s && k !in rest
      invariant Decreasing(r)
      invariant forall k, i :: k in rest && 0 <= i < |r| ==> k < r[i]
      invariant |r| + |rest| == |s|
      decreases rest
    {
      MaxExists(rest);
      var m :| m in rest && forall j :: j in rest ==> j <= m;
      r := r + [m];
      rest := rest - {m};
    }
  }

  /** The keys of a repository listed by id, lowest first. */
  method KeysAscending(s: set<int>) returns (r: seq<int>)
    ensures Increasing(r)
    ensures forall k :: k in r <==> k in s
    ensures |r| == |s|
  {
    r := [];
    var rest := s;
    while rest != {}
      invariant rest <= s
      invariant forall k :: k in r <==> k in s && k !in rest
      invariant Increasing(r)
      invariant forall k, i :: k in rest && 0 <= i < |r| ==> r[i] < k
      invariant |r| + |rest| == |s|
      decreases rest
    {
      MinExists(rest);
      var m :| m in rest && forall j :: j in rest ==> m <= j;
      r := r + [m];
      rest := rest - {m};
    }
  }

  /** How many members of `s` are above `k`: the position `k` takes when `s`
      is listed highest first. */
  function RankDesc(s: set<int>, k: int): nat {
    |set j | j in s && j > k|
  }

  /** A strictly ordered list holds as many distinct values as it has entries. */
  lemma {:induction false} DecreasingCard(t: seq<int>)
    requires Decreasing(t)
    ensures |set x | x in t| == |t|
  {
    if t != [] {
      DecreasingCard(t[1..]);
      assert (set x | x in t) == {t[0]} + (set x | x in t[1..]);
      assert t[0] !in t[1..];
    }
  }

  /** In a list of `s` ordered highest first, the entry at `i` has exactly `i`
      members of `s` above it. */
  lemma RankOfDescending(r: seq<int>, s: set<int>, i: nat)
    requires Decreasing(r) && (forall k :: k in r <==> k in s) && i < |r|
    ensures RankDesc(s, r[i]) == i
  {
    var above := set j | j in s && j > r[i];
    forall j | j in above ensures j in r[..i] {
      var n :| 0 <= n < |r| && r[n] == j;
      assert n < i;
    }
    assert above == set x | x in r[..i];
    DecreasingCard(r[..i]);
  }

  /** One page of the keys of a repository ordered by id, highest first
      (PageRequest.of(page, size, Sort.by(DESC, "id"))): the keys whose
      position falls in the page's window, still highest first. */
  method PageDescending(s: set<int>, page: nat, size: nat) returns (r: seq<int>)
    requires size >= 1
    ensures Decreasing(r) && |r| <= size
    ensures forall k :: k in r <==> k in s && page * size <= RankDesc(s, k) < page * size + size
  {
    var all := KeysDescending(s);
    var lo := if page * size < |all| then page * size else |all|;
    var hi := if page * size + size < |all| then page * size + size else |all|;
    r := all[lo..hi];
    forall k ensures k in r <==> k in s && page * size <= RankDesc(s, k) < page * size + size {
      if k in r {
        var n :| lo <= n < hi && all[n] == k;
        RankOfDescending(all, s, n);
      }
      if k in s {
        var n :| 0 <= n < |all| && all[n] == k;
        RankOfDescending(all, s, n);
        if page * size <= n < page * size + size {
          assert r[n - lo] == k;
        }
      }
    }
  }
}
