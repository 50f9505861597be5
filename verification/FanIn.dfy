/** The fan-in of the four checks: exactly when the order in which parts arrive, and the order of
    the records inside them, makes no difference to the evidence. */
module FanIn {
  import opened Text
  import opened Domain
  import opened EvidenceAssembly

  // ---------- parts that say the same ----------

  /** The same part with its records perhaps in another order, where no two differing records
      share a warehouse and no two differing estimates an origin. */
  ghost predicate SameContent(p: Part, q: Part) {
    && q == p.(inventory := q.inventory, deliveryEstimates := q.deliveryEstimates)
    && multiset(p.inventory) == multiset(q.inventory)
    && multiset(p.deliveryEstimates) == multiset(q.deliveryEstimates)
    && (forall x, y | x in p.inventory && y in p.inventory && WarehouseOf(x) == WarehouseOf(y) :: x == y)
    && (forall x, y | x in p.deliveryEstimates && y in p.deliveryEstimates && OriginOf(x) == OriginOf(y) :: x == y)
  }

  ghost predicate HasCopy(p: Part, others: seq<Part>) { exists q :: q in others && SameContent(p, q) }

  ghost predicate IsCopy(q: Part, parts: seq<Part>) { exists p :: p in parts && SameContent(p, q) }

  /** The same parts in any order of arrival, and with any order of the records inside them. */
  ghost predicate SameParts(parts: seq<Part>, others: seq<Part>) {
    && |parts| == |others|
    && (forall p | p in parts :: HasCopy(p, others))
    && (forall q | q in others :: IsCopy(q, parts))
  }

  /** Parts of which assembly makes the same. */
  ghost predicate Interchangeable(p: Part, q: Part) {
    && q.kind == p.kind && q.order == p.order
    && q.payment == p.payment && q.fulfilment == p.fulfilment && q.shippingStatus == p.shippingStatus
    && SortBy(WarehouseOf, p.inventory) == SortBy(WarehouseOf, q.inventory)
    && SortBy(OriginOf, p.deliveryEstimates) == SortBy(OriginOf, q.deliveryEstimates)
  }

  ghost predicate HasPartner(p: Part, others: seq<Part>) { exists q :: q in others && Interchangeable(p, q) }

  ghost predicate AllPartnered(parts: seq<Part>, others: seq<Part>) { forall p | p in parts :: HasPartner(p, others) }

  ghost predicate Alike(parts: seq<Part>, others: seq<Part>) {
    |parts| == |others| && AllPartnered(parts, others) && AllPartnered(others, parts)
  }

  lemma SameSort<T>(key: T -> string, xs: seq<T>, ys: seq<T>)
    requires multiset(xs) == multiset(ys)
    requires forall x, y | x in xs && y in xs && key(x) == key(y) :: x == y
    ensures SortBy(key, xs) == SortBy(key, ys)
  {
    var s, t := SortBy(key, xs), SortBy(key, ys);
    forall x | x in s ensures x in xs { assert x in multiset(s) && x in multiset(xs); }
    SortedArrangementUnique(key, s, t);
  }

  lemma SameContentInterchanges(p: Part, q: Part)
    requires SameContent(p, q)
    ensures Interchangeable(p, q) && Interchangeable(q, p)
  {
    SameSort(WarehouseOf, p.inventory, q.inventory);
    SameSort(OriginOf, p.deliveryEstimates, q.deliveryEstimates);
  }

  lemma PartneredBy(p: Part, q: Part, others: seq<Part>)
    requires q in others && Interchangeable(p, q)
    ensures HasPartner(p, others)
  {
    hide Interchangeable;
  }

  lemma CopyIsPartner(p: Part, others: seq<Part>)
    requires HasCopy(p, others)
    ensures HasPartner(p, others)
  {
    var q :| q in others && SameContent(p, q);
    SameContentInterchanges(p, q);
    hide SameContent;
    PartneredBy(p, q, others);
  }

  lemma OriginalIsPartner(q: Part, parts: seq<Part>)
    requires IsCopy(q, parts)
    ensures HasPartner(q, parts)
  {
    var p :| p in parts && SameContent(p, q);
    SameContentInterchanges(p, q);
    hide SameContent;
    PartneredBy(q, p, parts);
  }

  lemma SamePartsAlike(parts: seq<Part>, others: seq<Part>)
    requires SameParts(parts, others)
    ensures Alike(parts, others)
  {
    hide HasCopy, IsCopy, HasPartner;
    forall p | p in parts ensures HasPartner(p, others) { CopyIsPartner(p, others); }
    forall q | q in others ensures HasPartner(q, parts) { OriginalIsPartner(q, parts); }
  }

  lemma PermutedPartnered(parts: seq<Part>, others: seq<Part>)
    requires multiset(parts) == multiset(others)
    ensures AllPartnered(parts, others)
  {
    hide HasPartner;
    forall p | p in parts ensures HasPartner(p, others) {
      assert p in multiset(others);
      assert Interchangeable(p, p);
      PartneredBy(p, p, others);
    }
  }

  lemma PermutedAlike(parts: seq<Part>, others: seq<Part>)
    requires multiset(parts) == multiset(others)
    ensures Alike(parts, others)
  {
    assert |parts| == |multiset(parts)| == |multiset(others)| == |others|;
    PermutedPartnered(parts, others);
    PermutedPartnered(others, parts);
    hide AllPartnered;
  }

  // ---------- when the order of arrival makes no difference ----------

  /** One usable part of each kind the evidence needs, and no other. */
  ghost predicate Complete(parts: seq<Part>) {
    OncePerKind(parts) && AllUsable(parts) && KindsOf(parts) == REQUIRED
  }

  ghost predicate OneOrderOnly(parts: seq<Part>) {
    forall p, q | p in parts && q in parts :: p.order == q.order
  }

  ghost predicate ClashWith(p: Part, q: Part) {
    p.order.id != "" && q.order.id != "" && (p.order.id != q.order.id || p.order.version != q.order.version)
  }

  /** Two parts name orders that differ in ID or version. */
  ghost predicate OrdersClash(parts: seq<Part>) {
    exists p, q :: p in parts && q in parts && ClashWith(p, q)
  }

  /** Parts are missing, duplicated or unusable; or all carry one order; or two name different ones. */
  ghost predicate Settled(parts: seq<Part>) {
    !Complete(parts) || OneOrderOnly(parts) || OrdersClash(parts)
  }

  lemma Partner(p: Part, parts: seq<Part>, others: seq<Part>) returns (q: Part)
    requires p in parts && AllPartnered(parts, others)
    ensures q in others && Interchangeable(p, q)
  {
    assert HasPartner(p, others);
    q :| q in others && Interchangeable(p, q);
  }

  lemma PartneredKinds(parts: seq<Part>, others: seq<Part>)
    requires AllPartnered(parts, others)
    ensures KindsOf(parts) <= KindsOf(others)
  {
    hide AllPartnered;
    forall k | k in KindsOf(parts) ensures k in KindsOf(others) {
      var p :| p in parts && p.kind == k;
      var q := Partner(p, parts, others);
    }
  }

  lemma PartneredUsable(parts: seq<Part>, others: seq<Part>)
    requires AllPartnered(others, parts) && AllUsable(parts)
    ensures AllUsable(others)
  {
    hide AllPartnered;
    forall q | q in others ensures Usable(q) { var p := Partner(q, others, parts); }
  }

  lemma AlikeComplete(parts: seq<Part>, others: seq<Part>)
    requires Alike(parts, others) && Complete(parts)
    ensures Complete(others)
  {
    hide AllPartnered, OncePerKind, AllUsable, KindsOf;
    PartneredKinds(parts, others);
    PartneredKinds(others, parts);
    assert KindsOf(parts) == KindsOf(others);
    PartneredUsable(parts, others);
    OncePerKindBySize(parts);
    OncePerKindBySize(others);
  }

  lemma AlikeOrder(parts: seq<Part>, others: seq<Part>, o: Order)
    requires AllPartnered(others, parts) && forall p | p in parts :: p.order == o
    ensures forall q | q in others :: q.order == o
  {
    hide AllPartnered;
    forall q | q in others ensures q.order == o { var p := Partner(q, others, parts); }
  }

  lemma AlikeClash(parts: seq<Part>, others: seq<Part>)
    requires AllPartnered(parts, others) && OrdersClash(parts)
    ensures OrdersClash(others)
  {
    hide AllPartnered;
    var p, q :| p in parts && q in parts && ClashWith(p, q);
    var p', q' := Partners(p, q, parts, others);
    assert ClashWith(p', q');
  }

  lemma Partners(p: Part, q: Part, parts: seq<Part>, others: seq<Part>) returns (p': Part, q': Part)
    requires p in parts && q in parts && AllPartnered(parts, others)
    ensures p' in others && q' in others && Interchangeable(p, p') && Interchangeable(q, q')
  {
    hide AllPartnered, Interchangeable;
    p' := Partner(p, parts, others);
    q' := Partner(q, parts, others);
  }

  lemma ClashFails(parts: seq<Part>)
    requires OrdersClash(parts)
    ensures Assemble(parts) == Err(Unclassified)
  {
    var p, q :| p in parts && q in parts && ClashWith(p, q);
    var i :| 0 <= i < |parts| && parts[i] == p;
    var j :| 0 <= j < |parts| && parts[j] == q;
    assert i < j || j < i;
    assert !OneOrder(parts);
    AssembleComputes(parts);
    AssembleErrs(parts);
    hide Assemble, OneOrder, KindsOf;
  }

  lemma IncompleteFails(parts: seq<Part>)
    requires !Complete(parts)
    ensures Assemble(parts) == Err(Unclassified)
  {
    AssembleComputes(parts);
    AssembleErrs(parts);
    hide Assemble, OneOrder, KindsOf, OncePerKind, AllUsable;
  }

  lemma OneOrderSucceeds(parts: seq<Part>, o: Order)
    requires Complete(parts) && forall p | p in parts :: p.order == o
    ensures Assemble(parts).Ok? && Assemble(parts).value.order == o
  {
    assert OneOrder(parts);
    AssembleComputes(parts);
    hide Assemble, OneOrder, KindsOf, OncePerKind, AllUsable;
    AssembledOrder(parts, o);
  }

  lemma PartShown(parts: seq<Part>, p: Part)
    requires Assemble(parts).Ok? && p in parts
    ensures Shows(Assemble(parts).value, p)
  {
    AssembleComputes(parts);
    hide Assemble, Consistent, KindsOf, SortBy, FirstOrder;
  }

  lemma SamePartShown(parts: seq<Part>, others: seq<Part>, k: Kind) returns (p: Part, q: Part)
    requires AllPartnered(parts, others) && k in REQUIRED
    requires Assemble(parts).Ok? && Assemble(others).Ok?
    ensures p.kind == q.kind == k && Interchangeable(p, q)
    ensures Shows(Assemble(parts).value, p) && Shows(Assemble(others).value, q)
  {
    hide AllPartnered, Assemble, Shows;
    p := AssembledShows(parts, k);
    q := Partner(p, parts, others);
    PartShown(others, q);
  }

  lemma SameEvidence(parts: seq<Part>, others: seq<Part>)
    requires AllPartnered(parts, others) && Assemble(parts).Ok? && Assemble(others).Ok?
    requires Assemble(parts).value.order == Assemble(others).value.order
    ensures Assemble(parts) == Assemble(others)
  {
    hide Assemble, AllPartnered, SortBy;
    var p1, q1 := SamePartShown(parts, others, PaymentKind);
    var p2, q2 := SamePartShown(parts, others, InventoryKind);
    var p3, q3 := SamePartShown(parts, others, FulfilmentKind);
    var p4, q4 := SamePartShown(parts, others, ShippingKind);
  }

  lemma OneOrderAlike(parts: seq<Part>, others: seq<Part>)
    requires Alike(parts, others) && Complete(parts) && OneOrderOnly(parts)
    ensures Assemble(parts) == Assemble(others)
  {
    AlikeComplete(parts, others);
    assert PaymentKind in KindsOf(parts);
    var o := parts[0].order;
    assert forall p | p in parts :: p.order == o;
    hide AllPartnered, Complete, OneOrderOnly;
    AlikeOrder(parts, others, o);
    OneOrderSucceeds(parts, o);
    OneOrderSucceeds(others, o);
    SameEvidence(parts, others);
  }

  lemma SettledAlike(parts: seq<Part>, others: seq<Part>)
    requires Alike(parts, others) && Settled(parts)
    ensures Assemble(parts) == Assemble(others)
  {
    hide AllPartnered, Complete, OneOrderOnly, OrdersClash, Assemble;
    if !Complete(parts) {
      if Complete(others) { AlikeComplete(others, parts); }
      IncompleteFails(parts);
      IncompleteFails(others);
    } else if OrdersClash(parts) {
      AlikeClash(parts, others);
      ClashFails(parts);
      ClashFails(others);
    } else {
      OneOrderAlike(parts, others);
    }
  }

  // ---------- when it does make a difference ----------

  function MovedFirst(parts: seq<Part>, i: nat): seq<Part>
    requires i < |parts|
  {
    [parts[i]] + parts[..i] + parts[i + 1..]
  }

  function MovedLast(parts: seq<Part>, i: nat): seq<Part>
    requires i < |parts|
  {
    parts[..i] + parts[i + 1..] + [parts[i]]
  }

  lemma MovedIsPermuted(parts: seq<Part>, i: nat)
    requires i < |parts|
    ensures multiset(MovedFirst(parts, i)) == multiset(parts) == multiset(MovedLast(parts, i))
  {
    assert parts == parts[..i] + [parts[i]] + parts[i + 1..];
  }

  lemma PermutedMembers(parts: seq<Part>, others: seq<Part>)
    requires multiset(parts) == multiset(others)
    ensures forall p :: p in parts <==> p in others
    ensures Complete(parts) ==> Complete(others)
  {
    forall p ensures p in parts <==> p in others { assert p in multiset(parts) <==> p in multiset(others); }
    hide Complete;
    PermutedAlike(parts, others);
    if Complete(parts) { AlikeComplete(parts, others); }
  }

  lemma ConsistentSucceeds(parts: seq<Part>)
    requires Complete(parts) && OneOrder(parts)
    ensures Assemble(parts).Ok? && Assemble(parts).value.order == FirstOrder(parts)
  {
    AssembleComputes(parts);
    hide Assemble, OneOrder, KindsOf, OncePerKind, AllUsable;
  }

  lemma {:induction false} FirstOrderNamed(parts: seq<Part>)
    requires parts != [] && parts[0].order.id != ""
    ensures FirstOrder(parts) == parts[0].order
  {
    if |parts| > 1 {
      FirstOrderNamed(parts[..|parts| - 1]);
    } else {
      assert parts[..0] == [];
    }
  }

  lemma {:induction false} FirstOrderBlank(parts: seq<Part>)
    requires forall p | p in parts :: p.order.id == ""
    ensures FirstOrder(parts).id == ""
  {
    if parts != [] { FirstOrderBlank(parts[..|parts| - 1]); }
  }

  /** Where every part names its order and the names agree, the first part's order is taken. */
  lemma FirstNamedWins(parts: seq<Part>, i: nat)
    requires i < |parts| && Complete(parts) && !OrdersClash(parts) && forall p | p in parts :: p.order.id != ""
    ensures Assemble(MovedFirst(parts, i)).Ok? && Assemble(MovedFirst(parts, i)).value.order == parts[i].order
  {
    var a := MovedFirst(parts, i);
    MovedIsPermuted(parts, i);
    PermutedMembers(parts, a);
    forall k, l | 0 <= k < l < |a| ensures a[l].order.id == a[k].order.id && a[l].order.version == a[k].order.version {
      assert a[k] in parts && a[l] in parts;
      assert !ClashWith(a[k], a[l]);
    }
    assert OneOrder(a) && a[0] == parts[i];
    hide Complete, OrdersClash, MovedFirst, Assemble, OneOrder;
    FirstOrderNamed(a);
    ConsistentSucceeds(a);
  }

  /** Where no part names its order, the last part's order is taken. */
  lemma LastBlankWins(parts: seq<Part>, i: nat)
    requires i < |parts| && Complete(parts) && forall p | p in parts :: p.order.id == ""
    ensures Assemble(MovedLast(parts, i)).Ok? && Assemble(MovedLast(parts, i)).value.order == parts[i].order
  {
    var a := MovedLast(parts, i);
    MovedIsPermuted(parts, i);
    PermutedMembers(parts, a);
    var n := |a| - 1;
    assert a[n] == parts[i] && forall p | p in a[..n] :: p in a;
    assert OneOrder(a) by { assert forall k | 0 <= k < |a| :: a[k] in parts; }
    hide Complete, MovedLast, Assemble, OneOrder;
    FirstOrderBlank(a[..n]);
    ConsistentSucceeds(a);
  }

  function Unnamed(parts: seq<Part>): seq<Part> {
    if parts == [] then [] else (if parts[0].order.id == "" then [parts[0]] else []) + Unnamed(parts[1..])
  }

  function Named(parts: seq<Part>): seq<Part> {
    if parts == [] then [] else (if parts[0].order.id != "" then [parts[0]] else []) + Named(parts[1..])
  }

  lemma {:induction false} NamedApart(parts: seq<Part>)
    ensures multiset(Unnamed(parts) + Named(parts)) == multiset(parts)
    ensures (forall p | p in Unnamed(parts) :: p.order.id == "") && (forall p | p in Named(parts) :: p.order.id != "")
  {
    if parts != [] {
      NamedApart(parts[1..]);
      assert parts == [parts[0]] + parts[1..];
      assert multiset(parts) == multiset{parts[0]} + multiset(parts[1..]);
    }
  }

  lemma UnnamedFirstAgree(parts: seq<Part>, u: seq<Part>, n: seq<Part>)
    requires !OrdersClash(parts) && (forall p | p in u :: p.order.id == "") && forall p | p in n :: p in parts && p.order.id != ""
    ensures OneOrder(u + n)
  {
    var a := u + n;
    forall k, l | 0 <= k < l < |a| && a[k].order.id != ""
      ensures a[l].order.id == a[k].order.id && a[l].order.version == a[k].order.version
    {
      assert forall x | 0 <= x < |u| :: u[x].order.id == "";
      assert a[k] in n && a[l] in n;
      assert !ClashWith(a[k], a[l]);
    }
  }

  /** Unnamed parts may come before the named ones, but not after the first of them. */
  lemma UnnamedFirstSucceeds(parts: seq<Part>)
    requires Complete(parts) && !OrdersClash(parts)
    ensures multiset(Unnamed(parts) + Named(parts)) == multiset(parts)
    ensures Assemble(Unnamed(parts) + Named(parts)).Ok?
  {
    var a := Unnamed(parts) + Named(parts);
    NamedApart(parts);
    PermutedMembers(parts, a);
    hide Complete, OrdersClash, Assemble, OneOrder, Unnamed, Named;
    forall p | p in Named(parts) ensures p in parts { assert p in a; }
    UnnamedFirstAgree(parts, Unnamed(parts), Named(parts));
    ConsistentSucceeds(a);
  }

  lemma NamedBeforeUnnamedFails(parts: seq<Part>, i: nat)
    requires i < |parts| && parts[i].order.id != "" && exists p :: p in parts && p.order.id == ""
    ensures Assemble(MovedFirst(parts, i)).Err?
  {
    var a := MovedFirst(parts, i);
    var p :| p in parts && p.order.id == "";
    MovedIsPermuted(parts, i);
    assert p in multiset(parts) && p in multiset(a);
    var l :| 0 <= l < |a| && a[l] == p;
    assert a[0].order.id != "" && a[l].order.id == "" && 0 < l;
    assert !OneOrder(a);
    hide MovedFirst, Assemble, OneOrder;
    AssembleComputes(a);
  }

  /** Two arrivals of the same parts that assemble differently. */
  lemma DifferingArrivals(parts: seq<Part>) returns (a: seq<Part>, b: seq<Part>)
    requires !Settled(parts)
    ensures multiset(a) == multiset(parts) && multiset(b) == multiset(parts) && Assemble(a) != Assemble(b)
  {
    var p, q :| p in parts && q in parts && p.order != q.order;
    var i :| 0 <= i < |parts| && parts[i] == p;
    var j :| 0 <= j < |parts| && parts[j] == q;
    MovedIsPermuted(parts, i);
    MovedIsPermuted(parts, j);
    hide Complete, OrdersClash, OneOrderOnly, MovedFirst, MovedLast, Assemble;
    if forall r | r in parts :: r.order.id != "" {
      FirstNamedWins(parts, i);
      FirstNamedWins(parts, j);
      a, b := MovedFirst(parts, i), MovedFirst(parts, j);
    } else if forall r | r in parts :: r.order.id == "" {
      LastBlankWins(parts, i);
      LastBlankWins(parts, j);
      a, b := MovedLast(parts, i), MovedLast(parts, j);
    } else {
      var r :| r in parts && r.order.id != "";
      var k :| 0 <= k < |parts| && parts[k] == r;
      MovedIsPermuted(parts, k);
      NamedBeforeUnnamedFails(parts, k);
      UnnamedFirstSucceeds(parts);
      a, b := MovedFirst(parts, k), Unnamed(parts) + Named(parts);
    }
  }

  // ---------- the fan-in ----------

  /** Settled parts assemble alike in every order of arrival and for every order of the records
      inside them: the same evidence, or an error either way. */
  lemma FanInDeterministic(parts: seq<Part>, arrived: seq<Part>)
    requires SameParts(parts, arrived) && Settled(parts)
    ensures Assemble(parts) == Assemble(arrived)
  {
    SamePartsAlike(parts, arrived);
    hide Alike, SameParts, Settled, Assemble;
    SettledAlike(parts, arrived);
  }

  /** The order of arrival makes no difference exactly for settled parts: it shows as soon as a
      complete set of parts carries differing orders of which no two clash. */
  lemma ArrivalOrderIrrelevantExactly(parts: seq<Part>)
    ensures (forall arrived | multiset(arrived) == multiset(parts) :: Assemble(arrived) == Assemble(parts)) <==> Settled(parts)
  {
    hide Settled, Assemble;
    if Settled(parts) {
      forall arrived | multiset(arrived) == multiset(parts) ensures Assemble(arrived) == Assemble(parts) {
        PermutedAlike(parts, arrived);
        SettledAlike(parts, arrived);
      }
    } else {
      var a, b := DifferingArrivals(parts);
    }
  }

  /** For instance, where no part has an order ID the evidence shows the order of whichever part
      came last, though the orders differ. */
  lemma BlankOrderIsOverwritten(parts: seq<Part>, i: nat, j: nat)
    requires Complete(parts) && forall p | p in parts :: p.order.id == ""
    requires i < |parts| && j < |parts| && parts[i].order != parts[j].order
    ensures multiset(MovedLast(parts, i)) == multiset(parts) == multiset(MovedLast(parts, j))
    ensures Assemble(MovedLast(parts, i)).Ok? && Assemble(MovedLast(parts, i)).value.order == parts[i].order
    ensures Assemble(MovedLast(parts, j)).Ok? && Assemble(MovedLast(parts, j)).value.order == parts[j].order
    ensures !Settled(parts)
  {
    MovedIsPermuted(parts, i);
    MovedIsPermuted(parts, j);
    LastBlankWins(parts, i);
    LastBlankWins(parts, j);
    hide MovedLast, Assemble, Complete;
  }
}
