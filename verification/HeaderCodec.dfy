/** The canonical bytes of an envelope header. */
module HeaderCodec {
  import opened Types
  import opened Words
  import opened Cbor
  import ManifestCodec

  const MAX_HEADER: nat := 2048
  const MAX_PLAINTEXT: nat := 48 * 1024

  datatype Target = Target(member: Id32, key: Id32)

  datatype WireHeader = WireHeader(
    group: Id32, origin: Id32, sequence: u64, epoch: u64, namespace: Small, created: u64, expires: u64, hops: u64,
    targets: seq<Target>, clearLen: u64, salt: Id32)

  function Members(targets: seq<Target>): seq<Id32> { seq(|targets|, i requires 0 <= i < |targets| => targets[i].member) }

  predicate Bounded(h: WireHeader) { |h.targets| <= MAX_TARGETS && |h.namespace| <= 64 }

  predicate Valid(h: WireHeader) {
    && 0 < h.sequence <= MAX_LOGICAL_TIME && 0 < h.epoch <= MAX_LOGICAL_TIME && h.created < h.expires <= MAX_LOGICAL_TIME
    && 0 < h.hops <= 16 && 0 < |h.targets| && Bounded(h) && ManifestCodec.Ascending(Members(h.targets))
    && 0 < h.clearLen <= MAX_PLAINTEXT && ManifestCodec.NamespaceOk(h.namespace)
  }

  function Front(h: WireHeader): (f: seq<Item>)
    requires Bounded(h)
    ensures |f| == 13
  {
    [Array(14), Uint(1), Uint(1), Blob(h.group), Blob(h.origin), Uint(h.sequence), Uint(h.epoch), Text(h.namespace), Uint(1),
     Uint(h.created), Uint(h.expires), Uint(h.hops), Array(|h.targets|)]
  }

  const FRONT: seq<Kind> :=
    [ArrayOf(14), Version, Version, Fixed(32), Fixed(32), Number, Number, Chars(64), Version, Number, Number, Number, Count(MAX_TARGETS)]
  const TARGET: seq<Kind> := [ArrayOf(2), Fixed(32), Fixed(32)]
  const BACK: seq<Kind> := [Number, Fixed(32)]

  function TargetItems(t: Target): seq<Item> { [Array(2), Blob(t.member), Blob(t.key)] }

  lemma TargetFits(t: Target)
    ensures Fit(TargetItems(t), TARGET)
  {
  }

  function AllTargets(targets: seq<Target>): seq<Item> {
    if targets == [] then [] else AllTargets(targets[..|targets| - 1]) + TargetItems(targets[|targets| - 1])
  }

  lemma {:induction false} TargetsLength(targets: seq<Target>)
    ensures |AllTargets(targets)| == 3 * |targets|
  {
    if targets != [] { TargetsLength(targets[..|targets| - 1]); }
  }

  function Back(h: WireHeader): (f: seq<Item>)
    ensures |f| == 2
  {
    [Uint(h.clearLen), Blob(h.salt)]
  }

  function Items(h: WireHeader): seq<Item>
    requires Bounded(h)
  {
    Front(h) + AllTargets(h.targets) + Back(h)
  }

  function Encoding(h: WireHeader): Bytes
    requires Bounded(h)
  {
    Print(Items(h))
  }

  /** A target costs 69 bytes. */
  lemma {:induction false} SizeOfTargets(targets: seq<Target>)
    ensures Size(AllTargets(targets)) == 69 * |targets|
  {
    if targets != [] {
      var init, last := targets[..|targets| - 1], targets[|targets| - 1];
      SizeOfTargets(init);
      SizeJoin(AllTargets(init), TargetItems(last));
      OneTarget(last);
    }
  }

  lemma OneTarget(t: Target)
    ensures Size(TargetItems(t)) == 69
  {
    PrintThree(Array(2), Blob(t.member), Blob(t.key));
    assert |PrintItem(Array(2))| == 1 && |PrintItem(Blob(t.member))| == 34 && |PrintItem(Blob(t.key))| == 34;
  }

  /** Every valid header fits the decoder's limit. */
  lemma EncodingFits(h: WireHeader)
    requires Valid(h)
    ensures |Encoding(h)| <= MAX_HEADER
  {
    SizeJoin(Front(h) + AllTargets(h.targets), Back(h));
    SizeJoin(Front(h), AllTargets(h.targets));
    SizeOfTargets(h.targets);
    SizeBound(Front(h), 64);
    SizeBound(Back(h), 32);
  }

  lemma OneTargetFits(h: WireHeader)
    requires Valid(h) && |h.targets| == 1
    ensures |Encoding(h)| <= 1200
  {
    SizeJoin(Front(h) + AllTargets(h.targets), Back(h));
    SizeJoin(Front(h), AllTargets(h.targets));
    SizeOfTargets(h.targets);
    SizeBound(Front(h), 64);
    SizeBound(Back(h), 32);
  }

  lemma {:induction false} TargetsUnique(a: seq<Target>, b: seq<Target>)
    requires AllTargets(a) == AllTargets(b)
    ensures a == b
  {
    TargetsLength(a);
    TargetsLength(b);
    if a != [] {
      var n := |a| - 1;
      TargetsLength(a[..n]);
      TargetsLength(b[..n]);
      var s, t := AllTargets(a), AllTargets(b);
      assert s[..3 * n] == AllTargets(a[..n]) && t[..3 * n] == AllTargets(b[..n]);
      TargetsUnique(a[..n], b[..n]);
      assert s[3 * n..] == TargetItems(a[n]) && t[3 * n..] == TargetItems(b[n]);
      assert TargetItems(a[n])[1] == TargetItems(b[n])[1] && TargetItems(a[n])[2] == TargetItems(b[n])[2];
      assert a == a[..n] + [a[n]] && b == b[..n] + [b[n]];
    }
  }

  lemma SameFields(g: WireHeader, h: WireHeader)
    requires Bounded(g) && Bounded(h) && Front(g) == Front(h) && g.targets == h.targets && Back(g) == Back(h)
    ensures g == h
  {
    var a, b := Front(g), Front(h);
    assert a[3] == b[3] && a[4] == b[4] && a[5] == b[5] && a[6] == b[6] && a[7] == b[7] && a[9] == b[9] && a[10] == b[10] && a[11] == b[11];
    assert Back(g)[0] == Back(h)[0] && Back(g)[1] == Back(h)[1];
  }

  lemma EncodingUnique(g: WireHeader, h: WireHeader)
    requires Bounded(g) && Bounded(h) && Encoding(g) == Encoding(h)
    ensures g == h
  {
    PrintUnique(Items(g), Items(h));
    TargetsLength(g.targets);
    TargetsLength(h.targets);
    var s, t, k := Items(g), Items(h), 13 + 3 * |g.targets|;
    assert s[..13] == Front(g) && t[..13] == Front(h);
    assert Front(g)[12] == Array(|g.targets|) && Front(h)[12] == Array(|h.targets|);
    assert s[13..k] == AllTargets(g.targets) && t[13..k] == AllTargets(h.targets);
    assert s[k..] == Back(g) && t[k..] == Back(h);
    TargetsUnique(g.targets, h.targets);
    SameFields(g, h);
  }

  method Encode(h: WireHeader) returns (bytes: Bytes)
    requires Valid(h)
    ensures bytes == Encoding(h)
  {
    var w := new Writer();
    WriteFront(w, h);
    hide Front;
    ghost var start := w.items;
    for i := 0 to |h.targets|
      invariant w.Valid() && w.items == start + AllTargets(h.targets[..i])
    {
      w.WriteArray(2);
      w.WriteBlob(h.targets[i].member);
      w.WriteBlob(h.targets[i].key);
      OneMoreTarget(h.targets, i);
      assert start + AllTargets(h.targets[..i]) + TargetItems(h.targets[i]) == start + AllTargets(h.targets[..i + 1]);
    }
    assert h.targets[..|h.targets|] == h.targets;
    w.WriteUint(h.clearLen);
    w.WriteBlob(h.salt);
    assert w.items == Items(h);
    return w.out;
  }

  lemma OneMoreTarget(targets: seq<Target>, i: nat)
    requires i < |targets|
    ensures AllTargets(targets[..i + 1]) == AllTargets(targets[..i]) + TargetItems(targets[i])
  {
    assert targets[..i + 1][..i] == targets[..i];
  }

  method WriteFront(w: Writer, h: WireHeader)
    requires w.Valid() && w.items == [] && Bounded(h)
    modifies w
    ensures w.Valid() && w.items == Front(h)
  {
    hide Print;
    w.WriteArray(14);
    w.WriteUint(1);
    w.WriteUint(1);
    w.WriteBlob(h.group);
    w.WriteBlob(h.origin);
    w.WriteUint(h.sequence);
    w.WriteUint(h.epoch);
    w.WriteText(h.namespace);
    assert w.items == Front(h)[..8];
    w.WriteUint(1);
    w.WriteUint(h.created);
    w.WriteUint(h.expires);
    w.WriteUint(h.hops);
    w.WriteArray(|h.targets|);
  }

  ghost function Meant(bytes: Bytes): (w: Option<WireHeader>)
    ensures w.Some? ==> Valid(w.value) && Encoding(w.value) == bytes
    ensures w.None? ==> forall h :: Valid(h) ==> Encoding(h) != bytes
  {
    if exists h :: Valid(h) && Encoding(h) == bytes then
      var h :| Valid(h) && Encoding(h) == bytes;
      Some(h)
    else None
  }

  function TargetCount(front: seq<Item>): (n: nat)
    requires Fit(front, FRONT)
    ensures n <= MAX_TARGETS
  {
    front[12].n
  }

  function FromTarget(f: seq<Item>): (t: Target)
    requires Fit(f, TARGET)
    ensures TargetItems(t) == f
  {
    Target(f[1].bytes, f[2].bytes)
  }

  function FromFields(front: seq<Item>, targets: seq<Target>, back: seq<Item>): (h: WireHeader)
    requires Fit(front, FRONT) && |targets| == TargetCount(front) && Fit(back, BACK)
    ensures Bounded(h) && Front(h) == front && h.targets == targets && Back(h) == back
  {
    WireHeader(front[3].bytes, front[4].bytes, front[5].n, front[6].n, front[7].bytes, front[9].n, front[10].n, front[11].n,
               targets, back[0].n, back[1].bytes)
  }

  lemma FieldsOnGoal(h: WireHeader)
    requires Bounded(h)
    ensures Front(h) <= Items(h) && Front(h) + AllTargets(h.targets) <= Items(h) && Items(h) == Front(h) + AllTargets(h.targets) + Back(h)
    ensures Fit(Front(h), FRONT) && Fit(Back(h), BACK) && TargetCount(Front(h)) == |h.targets|
  {
  }

  /** The targets one by one, each an array of two identifiers. */
  method DecodeTargets(reader: Reader, n: nat, ghost wanted: seq<Target>) returns (r: Result<seq<Target>, DurableError>)
    requires reader.Valid()
    requires reader.Follows() ==> |wanted| == n && reader.items + AllTargets(wanted) <= reader.goal.value
    modifies reader
    ensures r.Ok? ==> reader.Valid() && |r.value| == n && reader.items == old(reader.items) + AllTargets(r.value)
    ensures old(reader.Follows()) ==> r == Ok(wanted) && reader.Follows()
    ensures r.Err? ==> r.error in {InvalidInput, UnsupportedSchema}
  {
    hide TargetItems, AllTargets, Print;
    var targets: seq<Target> := [];
    ghost var start, following := reader.items, reader.Follows();
    NoTargets(start);
    for i := 0 to n
      invariant reader.Valid() && |targets| == i && reader.items == start + AllTargets(targets)
      invariant following ==> reader.Follows() && |wanted| == n && targets == wanted[..i] && start + AllTargets(wanted) <= reader.goal.value
    {
      if following {
        TargetOnGoal(start, wanted, i, reader.goal.value);
        TargetFits(wanted[i]);
      }
      var f := ReadFields(reader, TARGET, if following then TargetItems(wanted[i]) else []);
      if f.Err? { return Err(f.error); }
      NextTarget(start, targets, FromTarget(f.value));
      if following { SameTarget(FromTarget(f.value), wanted[i]); }
      targets := targets + [FromTarget(f.value)];
    }
    if following { assert wanted[..n] == wanted; }
    return Ok(targets);
  }

  lemma NoTargets(start: seq<Item>)
    ensures start + AllTargets([]) == start
  {
  }

  lemma SameTarget(t: Target, u: Target)
    requires TargetItems(t) == TargetItems(u)
    ensures t == u
  {
    assert TargetItems(t)[1] == TargetItems(u)[1] && TargetItems(t)[2] == TargetItems(u)[2];
  }

  lemma NextTarget(start: seq<Item>, targets: seq<Target>, t: Target)
    ensures start + AllTargets(targets) + TargetItems(t) == start + AllTargets(targets + [t])
  {
    assert (targets + [t])[..|targets|] == targets;
  }

  lemma {:induction false} PrefixTargets(targets: seq<Target>, i: nat)
    requires i <= |targets|
    ensures AllTargets(targets[..i]) <= AllTargets(targets)
  {
    if i < |targets| {
      PrefixTargets(targets[..|targets| - 1], i);
      assert targets[..|targets| - 1][..i] == targets[..i];
    } else {
      assert targets[..i] == targets;
    }
  }

  lemma TakeOneMore(targets: seq<Target>, i: nat)
    requires i < |targets|
    ensures targets[..i + 1] == targets[..i] + [targets[i]]
  {
  }

  lemma TargetOnGoal(start: seq<Item>, wanted: seq<Target>, i: nat, goal: seq<Item>)
    requires i < |wanted| && start + AllTargets(wanted) <= goal
    ensures start + AllTargets(wanted[..i]) + TargetItems(wanted[i]) <= goal && wanted[..i + 1] == wanted[..i] + [wanted[i]]
  {
    hide AllTargets, TargetItems;
    TakeOneMore(wanted, i);
    var whole := AllTargets(wanted);
    assert AllTargets(wanted[..i]) + TargetItems(wanted[i]) <= whole by {
      OneMoreTarget(wanted, i);
      PrefixTargets(wanted, i + 1);
    }
    PrefixOf(start, AllTargets(wanted[..i]), TargetItems(wanted[i]), whole, goal);
  }

  lemma PrefixOf(start: seq<Item>, a: seq<Item>, b: seq<Item>, whole: seq<Item>, goal: seq<Item>)
    requires a + b <= whole && start + whole <= goal
    ensures start + a + b <= goal
  {
    assert start + a + b == start + (a + b);
    assert start + (a + b) <= start + whole;
  }

  /** Accepts exactly the bytes of valid headers, each as that header. */
  method Decode(bytes: Bytes) returns (r: Result<WireHeader, DurableError>)
    ensures r.Ok? ==> Valid(r.value) && Encoding(r.value) == bytes
    ensures forall h :: Valid(h) && Encoding(h) == bytes ==> r == Ok(h)
    ensures r.Err? ==> r.error in {InvalidInput, UnsupportedSchema}
  {
    ghost var w := Meant(bytes);
    forall h | Valid(h) && Encoding(h) == bytes ensures w == Some(h) { EncodingUnique(h, w.value); }
    if w.Some? { EncodingFits(w.value); }
    hide Valid, Encoding;
    if |bytes| > MAX_HEADER { return Err(InvalidInput); }
    r := DecodeFields(bytes, w);
  }

  method DecodeFields(bytes: Bytes, ghost w: Option<WireHeader>) returns (r: Result<WireHeader, DurableError>)
    requires w.Some? ==> Valid(w.value) && Encoding(w.value) == bytes
    ensures r.Ok? ==> Valid(r.value) && Encoding(r.value) == bytes
    ensures w.Some? ==> r == Ok(w.value)
    ensures r.Err? ==> r.error in {InvalidInput, UnsupportedSchema}
  {
    var reader := new Reader(bytes, if w.Some? then Some(Items(w.value)) else None);
    if w.Some? { FieldsOnGoal(w.value); }
    hide Print, Valid, Fit, Front, AllTargets, Back, TargetCount, FromFields, Items, Bounded;
    var front := ReadFields(reader, FRONT, if w.Some? then Front(w.value) else []);
    if front.Err? { return Err(front.error); }
    var targets := DecodeTargets(reader, TargetCount(front.value), if w.Some? then w.value.targets else []);
    if targets.Err? { return Err(targets.error); }
    var back := ReadFields(reader, BACK, if w.Some? then Back(w.value) else []);
    if back.Err? { return Err(back.error); }
    var end := reader.End();
    if end.Err? { return Err(end.error); }
    var h := FromFields(front.value, targets.value, back.value);
    if w.Some? { SameFields(h, w.value); }
    Assembled(h, reader.items, front.value, back.value);
    if !Valid(h) { return Err(InvalidInput); }
    return Ok(h);
  }

  lemma Assembled(h: WireHeader, items: seq<Item>, front: seq<Item>, back: seq<Item>)
    requires Bounded(h) && Front(h) == front && Back(h) == back && items == [] + front + AllTargets(h.targets) + back
    ensures Items(h) == items
  {
    assert [] + front == front;
  }
}
