/**
 * The order in which issued certificates are installed: the comparator and the stable sort of
 * src/cm/communication/communication.cpp.
 */
module CertOrder {
  import opened Seqs

  datatype CertType = IAM | Other(name: string)

  datatype Cert = Cert(nodeID: string, certType: CertType, chain: string)

  /** Strings in the order of their characters. */
  predicate StringLess(a: string, b: string) {
    if b == "" then false
    else if a == "" then true
    else a[0] < b[0] || (a[0] == b[0] && StringLess(a[1..], b[1..]))
  }

  /** The comparator, test by test. */
  predicate Before(mainNode: string, a: Cert, b: Cert) {
    if a.nodeID == mainNode && a.certType.IAM? then false
    else if b.nodeID == mainNode && b.certType.IAM? then true
    else if a.nodeID == mainNode then false
    else if b.nodeID == mainNode then true
    else if a.nodeID == b.nodeID then
      if a.certType.IAM? then false
      else if b.certType.IAM? then true
      else false
    else StringLess(a.nodeID, b.nodeID)
  }

  /** Main node last, then by node, then IAM last. */
  datatype Key = Key(onMain: bool, nodeID: string, iam: bool)

  function KeyOf(mainNode: string, c: Cert): Key {
    Key(c.nodeID == mainNode, if c.nodeID == mainNode then "" else c.nodeID, c.certType.IAM?)
  }

  predicate KeyLess(k: Key, l: Key) {
    || (!k.onMain && l.onMain)
    || (k.onMain == l.onMain && StringLess(k.nodeID, l.nodeID))
    || (k.onMain == l.onMain && k.nodeID == l.nodeID && !k.iam && l.iam)
  }

  lemma {:induction false} StringLessTotal(a: string, b: string)
    ensures StringLess(a, b) || a == b || StringLess(b, a)
  {
    if a != "" && b != "" && a[0] == b[0] {
      StringLessTotal(a[1..], b[1..]);
      assert a == [a[0]] + a[1..] && b == [b[0]] + b[1..];
    }
  }

  lemma {:induction false} StringLessStrict(a: string, b: string)
    requires StringLess(a, b)
    ensures a != b && !StringLess(b, a)
  {
    if a != "" && a[0] == b[0] {
      StringLessStrict(a[1..], b[1..]);
    }
  }

  lemma {:induction false} StringLessTransitive(a: string, b: string, c: string)
    requires StringLess(a, b) && StringLess(b, c)
    ensures StringLess(a, c)
  {
    if a != "" && a[0] == b[0] && b[0] == c[0] {
      StringLessTransitive(a[1..], b[1..], c[1..]);
    }
  }

  lemma KeyLessStrict(k: Key, l: Key)
    requires KeyLess(k, l)
    ensures k != l && !KeyLess(l, k)
  {
    if StringLess(k.nodeID, l.nodeID) {
      StringLessStrict(k.nodeID, l.nodeID);
    }
    if StringLess(l.nodeID, k.nodeID) {
      StringLessStrict(l.nodeID, k.nodeID);
    }
  }

  lemma KeyLessTransitive(k: Key, l: Key, m: Key)
    requires KeyLess(k, l) && KeyLess(l, m)
    ensures KeyLess(k, m)
  {
    if StringLess(k.nodeID, l.nodeID) && StringLess(l.nodeID, m.nodeID) {
      StringLessTransitive(k.nodeID, l.nodeID, m.nodeID);
    }
  }

  /** Keys that are not in order either way are equal. */
  lemma KeyLessTotal(k: Key, l: Key)
    ensures KeyLess(k, l) || k == l || KeyLess(l, k)
  {
    StringLessTotal(k.nodeID, l.nodeID);
  }

  /** The chain of tests is the lexicographic order of the keys. */
  lemma BeforeIsLexicographic(mainNode: string, a: Cert, b: Cert)
    ensures Before(mainNode, a, b) <==> KeyLess(KeyOf(mainNode, a), KeyOf(mainNode, b))
  {
    if a.nodeID == b.nodeID {
      if StringLess(a.nodeID, b.nodeID) {
        StringLessStrict(a.nodeID, b.nodeID);
      }
    }
  }

  /** So it is a strict weak order, as sorting demands. */
  lemma BeforeIsStrictWeakOrder(mainNode: string, a: Cert, b: Cert, c: Cert)
    ensures !Before(mainNode, a, a)
    ensures Before(mainNode, a, b) ==> !Before(mainNode, b, a)
    ensures Before(mainNode, a, b) && Before(mainNode, b, c) ==> Before(mainNode, a, c)
    ensures !Before(mainNode, a, b) && !Before(mainNode, b, a) && !Before(mainNode, b, c) && !Before(mainNode, c, b)
            ==> !Before(mainNode, a, c) && !Before(mainNode, c, a)
  {
    var k, l, m := KeyOf(mainNode, a), KeyOf(mainNode, b), KeyOf(mainNode, c);
    BeforeIsLexicographic(mainNode, a, a);
    BeforeIsLexicographic(mainNode, a, b);
    BeforeIsLexicographic(mainNode, b, a);
    BeforeIsLexicographic(mainNode, b, c);
    BeforeIsLexicographic(mainNode, c, b);
    BeforeIsLexicographic(mainNode, a, c);
    BeforeIsLexicographic(mainNode, c, a);
    if KeyLess(k, k) {
      KeyLessStrict(k, k);
    }
    if KeyLess(k, l) {
      KeyLessStrict(k, l);
      if KeyLess(l, m) {
        KeyLessTransitive(k, l, m);
      }
    }
    KeyLessTotal(k, l);
    KeyLessTotal(l, m);
  }

  // Stable sorting

  ghost predicate Sorted(mainNode: string, s: seq<Cert>) {
    forall i, j | 0 <= i < j < |s| :: !Before(mainNode, s[j], s[i])
  }

  function HasKey(mainNode: string, k: Key): Cert -> bool {
    (c: Cert) => KeyOf(mainNode, c) == k
  }

  /** result is sorted, and certificates that compare equal stand in their original order. */
  ghost predicate StableSorted(mainNode: string, certs: seq<Cert>, result: seq<Cert>) {
    Sorted(mainNode, result) && forall k :: Filter(result, HasKey(mainNode, k)) == Filter(certs, HasKey(mainNode, k))
  }

  lemma SameSelectionsSameBag(mainNode: string, s: seq<Cert>, t: seq<Cert>)
    requires forall k :: Filter(s, HasKey(mainNode, k)) == Filter(t, HasKey(mainNode, k))
    ensures multiset(s) == multiset(t)
  {
    forall c: Cert
      ensures multiset(s)[c] == multiset(t)[c]
    {
      FilterCount(s, HasKey(mainNode, KeyOf(mainNode, c)), c);
      FilterCount(t, HasKey(mainNode, KeyOf(mainNode, c)), c);
    }
  }

  /** No installation restarts the IAM that a later one still needs. */
  lemma SafeInstallOrder(mainNode: string, certs: seq<Cert>, result: seq<Cert>)
    requires StableSorted(mainNode, certs, result)
    ensures multiset(result) == multiset(certs)
    ensures forall i, j | 0 <= i < |result| && 0 <= j < |result| ::
              var (a, b) := (result[i], result[j]);
              && (a.nodeID == b.nodeID && !a.certType.IAM? && b.certType.IAM? ==> i < j)
              && (a.nodeID != mainNode && b.nodeID == mainNode ==> i < j)
              && (!(a.nodeID == mainNode && a.certType.IAM?) && b.nodeID == mainNode && b.certType.IAM? ==> i < j)
  {
    SameSelectionsSameBag(mainNode, certs, result);
  }

  lemma SortedTail(mainNode: string, s: seq<Cert>)
    requires Sorted(mainNode, s) && s != []
    ensures Sorted(mainNode, s[1..])
    ensures forall c | c in s[1..] :: !Before(mainNode, c, s[0])
  {
  }

  lemma InSorted(s: seq<Cert>, c: Cert)
    requires c in multiset(s) && s != []
    ensures c == s[0] || c in s[1..]
  {
    assert s == [s[0]] + s[1..];
  }

  /** The first elements of two sorted lists with the same selections are the same. */
  lemma SameHead(mainNode: string, s: seq<Cert>, t: seq<Cert>)
    requires Sorted(mainNode, s) && Sorted(mainNode, t) && s != [] && t != []
    requires forall k :: Filter(s, HasKey(mainNode, k)) == Filter(t, HasKey(mainNode, k))
    ensures s[0] == t[0]
  {
    SameSelectionsSameBag(mainNode, s, t);
    assert s[0] in multiset(s) && t[0] in multiset(t);
    SortedTail(mainNode, s);
    SortedTail(mainNode, t);
    BeforeIsStrictWeakOrder(mainNode, s[0], t[0], s[0]);
    BeforeIsLexicographic(mainNode, s[0], t[0]);
    BeforeIsLexicographic(mainNode, t[0], s[0]);
    var k := KeyOf(mainNode, s[0]);
    assert !Before(mainNode, t[0], s[0]) && !Before(mainNode, s[0], t[0]) by {
      InSorted(s, t[0]);
      InSorted(t, s[0]);
    }
    KeyLessTotal(k, KeyOf(mainNode, t[0]));
    assert Filter(s, HasKey(mainNode, k))[0] == s[0] && Filter(t, HasKey(mainNode, k))[0] == t[0];
  }

  /** Whatever the algorithm, a stable sort has one possible result. */
  lemma {:induction false} StableSortUnique(mainNode: string, s: seq<Cert>, t: seq<Cert>)
    requires Sorted(mainNode, s) && Sorted(mainNode, t)
    requires forall k :: Filter(s, HasKey(mainNode, k)) == Filter(t, HasKey(mainNode, k))
    ensures s == t
  {
    SameSelectionsSameBag(mainNode, s, t);
    assert |multiset(s)| == |multiset(t)|;
    if s != [] && t != [] {
      SameHead(mainNode, s, t);
      SortedTail(mainNode, s);
      SortedTail(mainNode, t);
      forall k
        ensures Filter(s[1..], HasKey(mainNode, k)) == Filter(t[1..], HasKey(mainNode, k))
      {
        assert Filter(s, HasKey(mainNode, k)) == Filter(t, HasKey(mainNode, k));
        if KeyOf(mainNode, s[0]) == k {
          assert Filter(s[1..], HasKey(mainNode, k)) == Filter(s, HasKey(mainNode, k))[1..];
          assert Filter(t[1..], HasKey(mainNode, k)) == Filter(t, HasKey(mainNode, k))[1..];
        }
      }
      StableSortUnique(mainNode, s[1..], t[1..]);
      assert s == [s[0]] + s[1..] && t == [t[0]] + t[1..];
    }
  }

  /** Inserts a certificate behind those it must not precede. */
  function Insert(mainNode: string, c: Cert, sorted: seq<Cert>): seq<Cert> {
    if sorted == [] || Before(mainNode, c, sorted[0]) then [c] + sorted
    else [sorted[0]] + Insert(mainNode, c, sorted[1..])
  }

  function StableSort(mainNode: string, certs: seq<Cert>): seq<Cert> {
    if certs == [] then []
    else Insert(mainNode, certs[|certs| - 1], StableSort(mainNode, certs[..|certs| - 1]))
  }

  lemma {:induction false} InsertSorted(mainNode: string, c: Cert, s: seq<Cert>)
    requires Sorted(mainNode, s)
    ensures Sorted(mainNode, Insert(mainNode, c, s))
    ensures forall x | x in Insert(mainNode, c, s) :: x == c || x in s
  {
    if s == [] {
    } else if Before(mainNode, c, s[0]) {
      forall j | 0 <= j < |s|
        ensures !Before(mainNode, s[j], c)
      {
        BeforeIsStrictWeakOrder(mainNode, s[j], c, s[0]);
        BeforeIsStrictWeakOrder(mainNode, c, s[0], c);
      }
    } else {
      SortedTail(mainNode, s);
      InsertSorted(mainNode, c, s[1..]);
    }
  }

  /** The new certificate comes behind every other with its key. */
  lemma {:induction false} InsertSelects(mainNode: string, c: Cert, s: seq<Cert>, k: Key)
    requires Sorted(mainNode, s)
    ensures Filter(Insert(mainNode, c, s), HasKey(mainNode, k)) ==
            Filter(s, HasKey(mainNode, k)) + if KeyOf(mainNode, c) == k then [c] else []
  {
    if s == [] {
    } else if Before(mainNode, c, s[0]) {
      if KeyOf(mainNode, c) == k {
        forall x | x in s
          ensures KeyOf(mainNode, x) != k
        {
          BeforeIsLexicographic(mainNode, c, s[0]);
          BeforeIsLexicographic(mainNode, x, s[0]);
          SortedTail(mainNode, s);
          BeforeIsStrictWeakOrder(mainNode, s[0], s[0], s[0]);
          InSorted(s, x);
        }
        FilterNone(s, HasKey(mainNode, k));
        assert ([c] + s)[1..] == s;
      } else {
        assert ([c] + s)[1..] == s;
      }
    } else {
      SortedTail(mainNode, s);
      InsertSelects(mainNode, c, s[1..], k);
      assert ([s[0]] + Insert(mainNode, c, s[1..]))[1..] == Insert(mainNode, c, s[1..]);
    }
  }

  /** A stable sort exists for every list of certificates; with the lemma above it is the one. */
  lemma {:induction false} StableSortSorts(mainNode: string, certs: seq<Cert>)
    ensures StableSorted(mainNode, certs, StableSort(mainNode, certs))
  {
    if certs != [] {
      var last := |certs| - 1;
      StableSortSorts(mainNode, certs[..last]);
      InsertSorted(mainNode, certs[last], StableSort(mainNode, certs[..last]));
      forall k
        ensures Filter(StableSort(mainNode, certs), HasKey(mainNode, k)) == Filter(certs, HasKey(mainNode, k))
      {
        InsertSelects(mainNode, certs[last], StableSort(mainNode, certs[..last]), k);
        FilterNext(certs, last, HasKey(mainNode, k));
        assert certs[..last + 1] == certs;
      }
    }
  }
}
