/** The answer reordering of `weightedRoundRobin` and `setTopRecord`
    (plugin/loadbalance/weighted.go): records are split by type, the
    expected top address is swapped to the front of the address records,
    and the answer is rebuilt as CNAME records, other records, address
    records, MX records. */
module Reorder {
  import opened Wrappers
  import opened Net

  /** The four buckets of `weightedRoundRobin`. */
  datatype Kind = Alias | Address | Mail | Rest

  function KindOf(r: Record): Kind {
    match r
    case CNAME(_, _) => Alias
    case A(_, _) => Address
    case AAAA(_, _) => Address
    case MX(_, _, _) => Mail
    case Other(_, _) => Rest
  }

  /** The place of a bucket in the rebuilt answer. */
  function Rank(k: Kind): nat {
    match k
    case Alias => 0
    case Rest => 1
    case Address => 2
    case Mail => 3
  }

  /** The records of `s` of kind `k`, in the order of `s`. */
  function Bucket(s: seq<Record>, k: Kind): (b: seq<Record>)
    ensures |b| <= |s|
    ensures forall i :: 0 <= i < |b| ==> KindOf(b[i]) == k
  {
    if s == [] then []
    else Bucket(s[..|s| - 1], k) + (if KindOf(s[|s| - 1]) == k then [s[|s| - 1]] else [])
  }

  lemma {:induction false} BucketConcat(a: seq<Record>, b: seq<Record>, k: Kind)
    ensures Bucket(a + b, k) == Bucket(a, k) + Bucket(b, k)
    decreases |b|
  {
    if b == [] {
      assert a + b == a;
    } else {
      assert (a + b)[..|a + b| - 1] == a + b[..|b| - 1];
      BucketConcat(a, b[..|b| - 1], k);
    }
  }

  lemma {:induction false} BucketOfOneKind(s: seq<Record>, k: Kind, k': Kind)
    requires forall i :: 0 <= i < |s| ==> KindOf(s[i]) == k
    ensures Bucket(s, k') == if k == k' then s else []
  {
    if s != [] {
      BucketOfOneKind(s[..|s| - 1], k, k');
    }
  }

  /** The records of the four buckets of `s`, counted together. */
  function Parts(s: seq<Record>): multiset<Record> {
    multiset(Bucket(s, Alias)) + multiset(Bucket(s, Rest)) + multiset(Bucket(s, Address)) + multiset(Bucket(s, Mail))
  }

  lemma BucketStep(s: seq<Record>, k: Kind)
    requires s != []
    ensures multiset(Bucket(s, k)) ==
            multiset(Bucket(s[..|s| - 1], k)) + if KindOf(s[|s| - 1]) == k then multiset{s[|s| - 1]} else multiset{}
  {
  }

  /** One more record lands in exactly one bucket. */
  lemma PartsStep(s: seq<Record>)
    requires s != []
    ensures Parts(s) == Parts(s[..|s| - 1]) + multiset{s[|s| - 1]}
  {
    BucketStep(s, Alias);
    BucketStep(s, Rest);
    BucketStep(s, Address);
    BucketStep(s, Mail);
  }

  lemma {:induction false} PartsAreRecords(s: seq<Record>)
    ensures Parts(s) == multiset(s)
  {
    if s != [] {
      var pre, x := s[..|s| - 1], s[|s| - 1];
      assert s == pre + [x];
      assert multiset(s) == multiset(pre) + multiset{x};
      PartsAreRecords(pre);
      PartsStep(s);
    }
  }

  /** The four buckets together hold exactly the records of `s`. */
  lemma BucketsPartition(s: seq<Record>)
    ensures multiset(Bucket(s, Alias) + Bucket(s, Rest) + Bucket(s, Address) + Bucket(s, Mail)) == multiset(s)
  {
    PartsAreRecords(s);
  }

  /** Whether address record `r` carries the expected top IP; a missing
      (nil) expectation equals no address. */
  predicate Matches(r: Record, ip: Option<IP>)
    ensures Matches(r, ip) ==> ip.Some? && KindOf(r) == Address
  {
    ip.Some? && ((r.A? && r.a == ip.value) || (r.AAAA? && r.aaaa == ip.value))
  }

  /** The index of the first record of `s` that carries `ip`, or -1. */
  function FirstMatch(s: seq<Record>, ip: Option<IP>): (i: int)
    ensures -1 <= i < |s|
    ensures i == -1 <==> forall j :: 0 <= j < |s| ==> !Matches(s[j], ip)
    ensures i >= 0 ==> Matches(s[i], ip) && forall j :: 0 <= j < i ==> !Matches(s[j], ip)
  {
    if s == [] then -1
    else if Matches(s[0], ip) then 0
    else
      var i := FirstMatch(s[1..], ip);
      assert forall j :: 1 <= j < |s| ==> s[j] == s[1..][j - 1];
      if i == -1 then -1 else i + 1
  }

  /** The labelled scan of `setTopRecord` over the address records. */
  method FindTop(address: array<Record>, ip: Option<IP>) returns (itop: int)
    ensures itop == FirstMatch(address[..], ip)
  {
    itop := -1;
    var i := 0;
    while i < address.Length
      invariant 0 <= i <= address.Length
      invariant forall j :: 0 <= j < i ==> !Matches(address[j], ip)
    {
      if Matches(address[i], ip) {
        itop := i;
        return;
      }
      i := i + 1;
    }
  }

  /** The record at `i` exchanged with the record at 0. */
  function SwapToFront(a: seq<Record>, i: nat): (r: seq<Record>)
    requires i < |a|
    ensures |r| == |a| && r[0] == a[i] && multiset(r) == multiset(a)
    ensures forall j :: 0 < j < |a| && j != i ==> r[j] == a[j]
  {
    a[0 := a[i]][i := a[0]]
  }

  /** The bucket loop of `weightedRoundRobin`. */
  method Split(records: seq<Record>) returns (cname: seq<Record>, address: seq<Record>, mx: seq<Record>, rest: seq<Record>)
    ensures cname == Bucket(records, Alias) && address == Bucket(records, Address)
    ensures mx == Bucket(records, Mail) && rest == Bucket(records, Rest)
  {
    cname, address, mx, rest := [], [], [], [];
    for i := 0 to |records|
      invariant cname == Bucket(records[..i], Alias) && address == Bucket(records[..i], Address)
      invariant mx == Bucket(records[..i], Mail) && rest == Bucket(records[..i], Rest)
    {
      assert records[..i + 1][..i] == records[..i];
      var r := records[i];
      match r {
        case CNAME(_, _) => cname := cname + [r];
        case A(_, _) => address := address + [r];
        case AAAA(_, _) => address := address + [r];
        case MX(_, _, _) => mx := mx + [r];
        case Other(_, _) => rest := rest + [r];
      }
    }
    assert records[..|records|] == records;
  }

  /** The rebuilt answer: CNAME records, other records, the address records
      with the one at `i` moved to the front, MX records. */
  function Arrange(records: seq<Record>, i: nat): (out: seq<Record>)
    requires i < |Bucket(records, Address)|
    ensures var front := |Bucket(records, Alias)| + |Bucket(records, Rest)|;
            front < |out| && out[front] == Bucket(records, Address)[i]
  {
    Bucket(records, Alias) + Bucket(records, Rest) + SwapToFront(Bucket(records, Address), i) + Bucket(records, Mail)
  }

  /** The rebuilt answer holds exactly the records of the input. */
  lemma ArrangeIsPermutation(records: seq<Record>, i: nat)
    requires i < |Bucket(records, Address)|
    ensures |Arrange(records, i)| == |records|
    ensures multiset(Arrange(records, i)) == multiset(records)
  {
    BucketsPartition(records);
    assert |multiset(Arrange(records, i))| == |Arrange(records, i)|;
    assert |multiset(records)| == |records|;
  }

  /** The address records after the swap are still address records. */
  lemma SwappedAddresses(records: seq<Record>, i: nat)
    requires i < |Bucket(records, Address)|
    ensures var a := SwapToFront(Bucket(records, Address), i);
            forall j :: 0 <= j < |a| ==> KindOf(a[j]) == Address
  {
    var a := SwapToFront(Bucket(records, Address), i);
    forall j | 0 <= j < |a| ensures KindOf(a[j]) == Address {
      assert a[j] in multiset(Bucket(records, Address));
    }
  }

  /** Four groups of one kind each, joined in rank order, are ordered by
      rank. */
  lemma GroupsInRankOrder(c: seq<Record>, o: seq<Record>, a: seq<Record>, m: seq<Record>)
    requires forall j :: 0 <= j < |c| ==> KindOf(c[j]) == Alias
    requires forall j :: 0 <= j < |o| ==> KindOf(o[j]) == Rest
    requires forall j :: 0 <= j < |a| ==> KindOf(a[j]) == Address
    requires forall j :: 0 <= j < |m| ==> KindOf(m[j]) == Mail
    ensures var out := c + o + a + m;
            forall j, l :: 0 <= j < l < |out| ==> Rank(KindOf(out[j])) <= Rank(KindOf(out[l]))
  {
    var out := c + o + a + m;
    forall j | 0 <= j < |out|
      ensures Rank(KindOf(out[j])) == if j < |c| then 0 else if j < |c| + |o| then 1
                                      else if j < |c| + |o| + |a| then 2 else 3
    {
      if j < |c| { assert out[j] == c[j]; }
      else if j < |c| + |o| { assert out[j] == o[j - |c|]; }
      else if j < |c| + |o| + |a| { assert out[j] == a[j - |c| - |o|]; }
      else { assert out[j] == m[j - |c| - |o| - |a|]; }
    }
  }

  /** In the rebuilt answer every CNAME record comes before every other
      record, those before every address record, and those before every MX
      record. */
  lemma ArrangeIsGrouped(records: seq<Record>, i: nat)
    requires i < |Bucket(records, Address)|
    ensures var out := Arrange(records, i);
            forall j, l :: 0 <= j < l < |out| ==> Rank(KindOf(out[j])) <= Rank(KindOf(out[l]))
  {
    SwappedAddresses(records, i);
    GroupsInRankOrder(Bucket(records, Alias), Bucket(records, Rest),
                      SwapToFront(Bucket(records, Address), i), Bucket(records, Mail));
  }

  /** Appending records of one kind adds them to that kind's bucket only. */
  lemma BucketAppendGroup(x: seq<Record>, y: seq<Record>, ky: Kind, k: Kind)
    requires forall j :: 0 <= j < |y| ==> KindOf(y[j]) == ky
    ensures Bucket(x + y, k) == if ky == k then Bucket(x, k) + y else Bucket(x, k)
  {
    BucketConcat(x, y, k);
    BucketOfOneKind(y, ky, k);
    if ky != k {
      assert Bucket(x, k) + [] == Bucket(x, k);
    }
  }

  lemma BucketOfGroups(c: seq<Record>, o: seq<Record>, a: seq<Record>, m: seq<Record>, k: Kind)
    requires forall j :: 0 <= j < |c| ==> KindOf(c[j]) == Alias
    requires forall j :: 0 <= j < |o| ==> KindOf(o[j]) == Rest
    requires forall j :: 0 <= j < |a| ==> KindOf(a[j]) == Address
    requires forall j :: 0 <= j < |m| ==> KindOf(m[j]) == Mail
    ensures Bucket(c + o + a + m, k) == match k case Alias => c case Rest => o case Address => a case Mail => m
  {
    BucketOfOneKind(c, Alias, k);
    BucketAppendGroup(c, o, Rest, k);
    BucketAppendGroup(c + o, a, Address, k);
    BucketAppendGroup(c + o + a, m, Mail, k);
    if k != Alias {
      assert Bucket(c, k) == [];
    }
    if k == Rest || k == Address || k == Mail {
      assert [] + (if k == Rest then o else if k == Address then a else m) ==
             (if k == Rest then o else if k == Address then a else m);
    }
  }

  /** Each bucket of the rebuilt answer is the input's bucket, in input
      order, except for the single swap among the address records; so the
      first address record of the output is the chosen one. */
  lemma ArrangeKeepsBuckets(records: seq<Record>, i: nat)
    requires i < |Bucket(records, Address)|
    ensures var out := Arrange(records, i);
            Bucket(out, Alias) == Bucket(records, Alias) && Bucket(out, Rest) == Bucket(records, Rest) &&
            Bucket(out, Mail) == Bucket(records, Mail) &&
            Bucket(out, Address) == SwapToFront(Bucket(records, Address), i) &&
            Bucket(out, Address)[0] == Bucket(records, Address)[i]
  {
    var c, o, m := Bucket(records, Alias), Bucket(records, Rest), Bucket(records, Mail);
    var a := SwapToFront(Bucket(records, Address), i);
    SwappedAddresses(records, i);
    BucketOfGroups(c, o, a, m, Alias);
    BucketOfGroups(c, o, a, m, Rest);
    BucketOfGroups(c, o, a, m, Address);
    BucketOfGroups(c, o, a, m, Mail);
  }
}
