/** Listing the sibling families under a root, and finding one again from its handle. */
module Families {
  import opened FamilyNames
  import opened Options
  import opened Sorting
  import Sets

  datatype Kind = Directory | Regular | Symlink | Special

  datatype Info = Info(kind: Kind, owner: Option<int>)

  /** A child of a root, and what lstat says of it. */
  datatype Entry = Entry(name: string, info: Option<Info>)

  datatype Family = Family(place: Place, members: seq<string>)

  /** What a listing is asked for: prefixes left out, whose entries, and paths already claimed. */
  datatype Query = Query(excludePrefixes: seq<string>, uid: int, skip: set<string>)

  /** The directories that can be read, and their children. */
  type Directories = map<string, seq<Entry>>

  // ---- Which entries belong to which family ----

  predicate Excluded(q: Query, name: string) {
    exists i :: 0 <= i < |q.excludePrefixes| && q.excludePrefixes[i] <= name
  }

  predicate Admitted(q: Query, root: string, e: Entry) {
    && !Excluded(q, e.name)
    && KeyOf(e.name).Some?
    && Join(root, e.name) !in q.skip
    && e.info.Some?
    && (e.info.value.kind == Directory || e.info.value.kind == Regular)
    && e.info.value.owner == Some(q.uid)
  }

  predicate Joins(q: Query, root: string, e: Entry, k: Key) {
    Admitted(q, root, e) && KeyOf(e.name) == Some(k)
  }

  /** The paths of the admitted entries with the key, in directory order. */
  function MembersOf(q: Query, root: string, entries: seq<Entry>, k: Key): seq<string> {
    if entries == [] then []
    else
      var n := |entries| - 1;
      var before := MembersOf(q, root, entries[..n], k);
      if Joins(q, root, entries[n], k) then before + [Join(root, entries[n].name)] else before
  }

  // ---- String order ----

  predicate NotAfter(a: string, b: string) {
    a == "" || (b != "" && (a[0] < b[0] || (a[0] == b[0] && NotAfter(a[1..], b[1..]))))
  }

  lemma {:induction false} StringsCompare(a: string, b: string)
    ensures NotAfter(a, b) || NotAfter(b, a)
    ensures NotAfter(a, b) && NotAfter(b, a) ==> a == b
  {
    if a != "" && b != "" {
      StringsCompare(a[1..], b[1..]);
      assert a == [a[0]] + a[1..] && b == [b[0]] + b[1..];
    }
  }

  lemma {:induction false} StringsChain(a: string, b: string, c: string)
    requires NotAfter(a, b) && NotAfter(b, c)
    ensures NotAfter(a, c)
  {
    if a != "" && a[0] == b[0] == c[0] {
      StringsChain(a[1..], b[1..], c[1..]);
    }
  }

  /** Byte by byte: one is the beginning of the other, or is smaller where they first differ. */
  lemma {:induction false} NotAfterIff(a: string, b: string)
    ensures NotAfter(a, b) <==> a <= b || exists i :: 0 <= i < |a| && i < |b| && a[..i] == b[..i] && a[i] < b[i]
  {
    if a != "" && b != "" {
      NotAfterIff(a[1..], b[1..]);
      if a[0] < b[0] {
        assert a[..0] == b[..0];
      } else if a[0] == b[0] {
        assert a == [a[0]] + a[1..] && b == [b[0]] + b[1..];
        assert a[1..] <= b[1..] <==> a <= b;
        if i :| 0 <= i < |a| - 1 && i < |b| - 1 && a[1..][..i] == b[1..][..i] && a[1..][i] < b[1..][i] {
          assert a[..i + 1] == [a[0]] + a[1..][..i] && b[..i + 1] == [b[0]] + b[1..][..i];
          assert a[i + 1] < b[i + 1];
        }
        if i :| 0 <= i < |a| && i < |b| && a[..i] == b[..i] && a[i] < b[i] {
          assert i > 0 && a[1..][..i - 1] == a[..i][1..] && b[1..][..i - 1] == b[..i][1..];
          assert a[1..][i - 1] < b[1..][i - 1];
        }
      } else {
        DifferAtOnce(a, b);
      }
    }
  }

  lemma DifferAtOnce(a: string, b: string)
    requires a != "" && b != "" && a[0] > b[0]
    ensures !(a <= b) && !exists i :: 0 <= i < |a| && i < |b| && a[..i] == b[..i] && a[i] < b[i]
  {
    forall i | 0 <= i < |a| && i < |b| ensures !(a[..i] == b[..i] && a[i] < b[i]) {
      if i > 0 {
        assert a[..i][0] == a[0] && b[..i][0] == b[0];
      }
    }
  }

  lemma StringsOrdered()
    ensures TotalPreorder(NotAfter)
  {
    forall a, b ensures NotAfter(a, b) || NotAfter(b, a) {
      StringsCompare(a, b);
    }
    forall a, b, c | NotAfter(a, b) && NotAfter(b, c) ensures NotAfter(a, c) {
      StringsChain(a, b, c);
    }
  }

  predicate HandleNotAfter(f: Family, g: Family) {
    NotAfter(Handle(f.place), Handle(g.place))
  }

  lemma FamiliesOrdered()
    ensures TotalPreorder(HandleNotAfter)
  {
    StringsOrdered();
  }

  // ---- The listing ----

  /** The family of `k` as a listing reports it: the paths of its entries, in order. */
  ghost predicate Reports(q: Query, root: string, entries: seq<Entry>, f: Family) {
    && f.place.root == root
    && f.members != []
    && multiset(f.members) == multiset(MembersOf(q, root, entries, f.place.key))
    && Sorted(f.members, NotAfter)
  }

  ghost predicate HasKey(fams: seq<Family>, k: Key) {
    exists f :: f in fams && f.place.key == k
  }

  /** One family for each key of an admitted entry, in strict order of handle. */
  ghost predicate IsListing(q: Query, root: string, entries: seq<Entry>, fams: seq<Family>) {
    && (forall f :: f in fams ==> Reports(q, root, entries, f))
    && (forall e :: e in entries && Admitted(q, root, e) ==> HasKey(fams, KeyOf(e.name).value))
    && (forall i, j :: 0 <= i < j < |fams| ==>
          HandleNotAfter(fams[i], fams[j]) && Handle(fams[i].place) != Handle(fams[j].place))
  }

  method ListFamilies(dirs: Directories, root: string, q: Query) returns (fams: seq<Family>)
    ensures root in dirs ==> IsListing(q, root, dirs[root], fams)
    ensures root !in dirs ==> fams == []
  {
    if root !in dirs {
      return [];
    }
    var byKey := GroupByKey(root, dirs[root], q);
    var out := InAnyOrder(root, dirs[root], q, byKey);
    FamiliesOrdered();
    fams := Sort(out, HandleNotAfter);
    PermutationMembers(out, fams);
    HandlesDistinct(q, root, dirs[root], out, fams);
    forall e | e in dirs[root] && Admitted(q, root, e) ensures HasKey(fams, KeyOf(e.name).value) {
      assert HasKey(out, KeyOf(e.name).value);
    }
  }

  method GroupByKey(root: string, entries: seq<Entry>, q: Query) returns (byKey: map<Key, seq<string>>)
    ensures forall k :: k in byKey ==> byKey[k] == MembersOf(q, root, entries, k) != []
    ensures forall k :: k !in byKey ==> MembersOf(q, root, entries, k) == []
  {
    hide KeyOf, Join, Excluded;
    byKey := map[];
    for n := 0 to |entries|
      invariant forall k :: k in byKey ==> byKey[k] == MembersOf(q, root, entries[..n], k) != []
      invariant forall k :: k !in byKey ==> MembersOf(q, root, entries[..n], k) == []
    {
      var e := entries[n];
      assert entries[..n + 1][..n] == entries[..n];
      var excluded := IsExcluded(e.name, q);
      if excluded {
        continue;
      }
      var key := KeyOf(e.name);
      if key.None? {
        continue;
      }
      var p := Join(root, e.name);
      if p in q.skip {
        continue;
      }
      if e.info.None? || e.info.value.kind == Symlink {
        continue;
      }
      if e.info.value.kind != Directory && e.info.value.kind != Regular {
        continue;
      }
      if e.info.value.owner != Some(q.uid) {
        continue;
      }
      var k := key.value;
      if k !in byKey {
        byKey := byKey[k := []];
      }
      byKey := byKey[k := byKey[k] + [p]];
    }
    assert entries[..|entries|] == entries;
  }

  method IsExcluded(name: string, q: Query) returns (excluded: bool)
    ensures excluded == Excluded(q, name)
  {
    for i := 0 to |q.excludePrefixes|
      invariant forall j :: 0 <= j < i ==> !(q.excludePrefixes[j] <= name)
    {
      if q.excludePrefixes[i] <= name {
        return true;
      }
    }
    return false;
  }

  /** The families of the map, each with its members sorted, in whatever order it is walked. */
  method InAnyOrder(root: string, entries: seq<Entry>, q: Query, byKey: map<Key, seq<string>>) returns (out: seq<Family>)
    requires forall k :: k in byKey ==> byKey[k] == MembersOf(q, root, entries, k) != []
    requires forall k :: k !in byKey ==> MembersOf(q, root, entries, k) == []
    ensures forall f :: f in out ==> Reports(q, root, entries, f)
    ensures forall e :: e in entries && Admitted(q, root, e) ==> HasKey(out, KeyOf(e.name).value)
    ensures forall i, j :: 0 <= i < j < |out| ==> out[i].place.key != out[j].place.key
  {
    hide KeyOf, Join, Excluded, MembersOf;
    StringsOrdered();
    out := [];
    var keys := byKey.Keys;
    while keys != {}
      invariant keys <= byKey.Keys
      invariant forall f :: f in out ==> Reports(q, root, entries, f) && f.place.key in byKey && f.place.key !in keys
      invariant forall k :: k in byKey && k !in keys ==> HasKey(out, k)
      invariant forall i, j :: 0 <= i < j < |out| ==> out[i].place.key != out[j].place.key
      decreases |keys|
    {
      var k := Sets.Next(keys);
      var members := Sort(byKey[k], NotAfter);
      PermutationMembers(byKey[k], members);
      var f := Family(Place(root, k), members);
      assert Reports(q, root, entries, f);
      forall i | 0 <= i < |out| ensures out[i].place.key != k {
        assert out[i] in out;
      }
      var more := out + [f];
      forall l | l in byKey && l !in keys - {k} ensures HasKey(more, l) {
        if l != k {
          assert HasKey(out, l);
        } else {
          assert f in more;
        }
      }
      out := more;
      keys := keys - {k};
    }
    forall e | e in entries && Admitted(q, root, e) ensures HasKey(out, KeyOf(e.name).value) {
      HasMembers(q, root, entries, e);
    }
  }

  lemma {:induction false} HasMembers(q: Query, root: string, entries: seq<Entry>, e: Entry)
    requires e in entries && Admitted(q, root, e)
    ensures Join(root, e.name) in MembersOf(q, root, entries, KeyOf(e.name).value)
  {
    hide KeyOf, Join, Excluded;
    var n := |entries| - 1;
    if e != entries[n] {
      assert entries == entries[..n] + [entries[n]];
      HasMembers(q, root, entries[..n], e);
    }
  }

  /** Members of a family come from admitted entries with its key. */
  lemma {:induction false} MembersAreEntries(q: Query, root: string, entries: seq<Entry>, k: Key, path: string)
    requires path in MembersOf(q, root, entries, k)
    ensures exists e :: e in entries && Joins(q, root, e, k) && Join(root, e.name) == path
  {
    hide KeyOf, Join, Excluded;
    var n := |entries| - 1;
    if Joins(q, root, entries[n], k) && Join(root, entries[n].name) == path {
      assert entries[n] in entries;
    } else {
      MembersAreEntries(q, root, entries[..n], k, path);
      var e :| e in entries[..n] && Joins(q, root, e, k) && Join(root, e.name) == path;
      assert e in entries;
    }
  }

  lemma ReportedKeyIsNormal(q: Query, root: string, entries: seq<Entry>, f: Family)
    requires Reports(q, root, entries, f)
    ensures exists e :: e in entries && Joins(q, root, e, f.place.key)
    ensures Normal(f.place.key)
  {
    hide KeyOf, Join, Excluded;
    PermutationMembers(f.members, MembersOf(q, root, entries, f.place.key));
    MembersAreEntries(q, root, entries, f.place.key, f.members[0]);
    var e :| e in entries && Joins(q, root, e, f.place.key);
    KeySplits(e.name);
  }

  lemma HandlesDistinct(q: Query, root: string, entries: seq<Entry>, out: seq<Family>, fams: seq<Family>)
    requires multiset(out) == multiset(fams)
    requires forall f :: f in out ==> Reports(q, root, entries, f)
    requires forall i, j :: 0 <= i < j < |out| ==> out[i].place.key != out[j].place.key
    ensures forall i, j :: 0 <= i < j < |fams| ==> Handle(fams[i].place) != Handle(fams[j].place)
  {
    hide KeyOf, Join, Handle, MembersOf;
    assert Distinct(out);
    DistinctPermutes(out, fams);
    PermutationMembers(out, fams);
    forall i, j | 0 <= i < j < |fams| ensures Handle(fams[i].place) != Handle(fams[j].place) {
      var f, g := fams[i], fams[j];
      assert f in out && g in out;
      var a :| 0 <= a < |out| && out[a] == f;
      var b :| 0 <= b < |out| && out[b] == g;
      assert f.place.key != g.place.key;
      ReportedKeyIsNormal(q, root, entries, f);
      ReportedKeyIsNormal(q, root, entries, g);
      if Handle(f.place) == Handle(g.place) {
        HandlesDiffer(root, f.place.key, g.place.key);
      }
    }
  }

  // ---- A listing partitions the admitted entries ----

  /** Names as a directory gives them. */
  ghost predicate EntryNames(entries: seq<Entry>) {
    forall e :: e in entries ==> e.name != "" && '/' !in e.name
  }

  lemma SameJoin(root: string, a: string, b: string)
    requires CleanRoot(root) && a != "" && b != "" && '/' !in a && '/' !in b
    requires Join(root, a) == Join(root, b)
    ensures a == b
  {
    JoinParts(root, a);
    JoinParts(root, b);
  }

  /** What is in a family's members, and only that, is the path of an entry with its key. */
  lemma MemberIff(q: Query, root: string, entries: seq<Entry>, f: Family, e: Entry)
    requires CleanRoot(root) && EntryNames(entries) && e in entries && Admitted(q, root, e)
    requires Reports(q, root, entries, f)
    ensures Join(root, e.name) in f.members <==> KeyOf(e.name) == Some(f.place.key)
  {
    hide KeyOf, Join, Excluded, CleanRoot;
    var k := f.place.key;
    PermutationMembers(f.members, MembersOf(q, root, entries, k));
    if KeyOf(e.name) == Some(k) {
      HasMembers(q, root, entries, e);
    }
    if Join(root, e.name) in f.members {
      MembersAreEntries(q, root, entries, k, Join(root, e.name));
      var d :| d in entries && Joins(q, root, d, k) && Join(root, d.name) == Join(root, e.name);
      SameJoin(root, d.name, e.name);
    }
  }

  /** Each admitted entry is in exactly one of the families listed. */
  lemma ListingPartitions(q: Query, root: string, entries: seq<Entry>, fams: seq<Family>, e: Entry)
    requires CleanRoot(root) && EntryNames(entries) && IsListing(q, root, entries, fams)
    requires e in entries && Admitted(q, root, e)
    ensures exists f :: f in fams && Join(root, e.name) in f.members
    ensures forall i, j :: (0 <= i < |fams| && 0 <= j < |fams|
              && Join(root, e.name) in fams[i].members && Join(root, e.name) in fams[j].members) ==> i == j
  {
    hide KeyOf, Join, Excluded, CleanRoot, Handle, HandleNotAfter;
    var f :| f in fams && f.place.key == KeyOf(e.name).value;
    MemberIff(q, root, entries, f, e);
    forall i, j | 0 <= i < |fams| && 0 <= j < |fams|
                  && Join(root, e.name) in fams[i].members && Join(root, e.name) in fams[j].members
      ensures i == j
    {
      assert fams[i] in fams && fams[j] in fams;
      MemberIff(q, root, entries, fams[i], e);
      MemberIff(q, root, entries, fams[j], e);
      assert fams[i].place == fams[j].place;
    }
  }

  /** An entry that belongs in a family: not left out by name, not claimed yet, a directory or regular
      file of this user, whose name has a key. */
  ghost predicate Belongs(q: Query, root: string, e: Entry) {
    && (forall x :: x in q.excludePrefixes ==> !(x <= e.name))
    && KeyOf(e.name).Some?
    && Join(root, e.name) !in q.skip
    && e.info.Some? && e.info.value.kind in {Directory, Regular} && e.info.value.owner == Some(q.uid)
  }

  lemma AdmittedIff(q: Query, root: string, e: Entry)
    ensures Admitted(q, root, e) <==> Belongs(q, root, e)
  {
    hide KeyOf, Join;
    if forall x :: x in q.excludePrefixes ==> !(x <= e.name) {
      forall i | 0 <= i < |q.excludePrefixes| ensures !(q.excludePrefixes[i] <= e.name) {
        assert q.excludePrefixes[i] in q.excludePrefixes;
      }
    }
  }

  /** The members of the families are the paths of exactly these entries. */
  lemma MembersAre(q: Query, root: string, entries: seq<Entry>, fams: seq<Family>, path: string)
    requires IsListing(q, root, entries, fams)
    ensures (exists f :: f in fams && path in f.members) <==>
            (exists e :: e in entries && Belongs(q, root, e) && Join(root, e.name) == path)
  {
    hide KeyOf, Join, Excluded, Handle, HandleNotAfter, MembersOf;
    if f :| f in fams && path in f.members {
      PermutationMembers(f.members, MembersOf(q, root, entries, f.place.key));
      MembersAreEntries(q, root, entries, f.place.key, path);
      var e :| e in entries && Joins(q, root, e, f.place.key) && Join(root, e.name) == path;
      AdmittedIff(q, root, e);
    }
    if e :| e in entries && Belongs(q, root, e) && Join(root, e.name) == path {
      AdmittedIff(q, root, e);
      HasMembers(q, root, entries, e);
      var f :| f in fams && f.place.key == KeyOf(e.name).value;
      PermutationMembers(f.members, MembersOf(q, root, entries, f.place.key));
    }
  }

  function Admissions(q: Query, root: string, entries: seq<Entry>): nat {
    if entries == [] then 0
    else Admissions(q, root, entries[..|entries| - 1]) + if Admitted(q, root, entries[|entries| - 1]) then 1 else 0
  }

  function Listed(fams: seq<Family>): nat {
    if fams == [] then 0 else Listed(fams[..|fams| - 1]) + |fams[|fams| - 1].members|
  }

  /** The entries of all these families together. */
  function Together(q: Query, root: string, entries: seq<Entry>, fams: seq<Family>): nat {
    if fams == [] then 0
    else
      var n := |fams| - 1;
      Together(q, root, entries, fams[..n]) + |MembersOf(q, root, entries, fams[n].place.key)|
  }

  lemma {:induction false} OneMoreEntry(q: Query, root: string, entries: seq<Entry>, fams: seq<Family>)
    requires entries != [] && forall i, j :: 0 <= i < j < |fams| ==> fams[i].place.key != fams[j].place.key
    ensures var e := entries[|entries| - 1];
            Together(q, root, entries, fams) == Together(q, root, entries[..|entries| - 1], fams)
              + if Admitted(q, root, e) && HasKey(fams, KeyOf(e.name).value) then 1 else 0
  {
    hide KeyOf, Join, Excluded;
    if fams != [] {
      var n := |fams| - 1;
      var e := entries[|entries| - 1];
      OneMoreEntry(q, root, entries, fams[..n]);
      if Admitted(q, root, e) {
        var k := KeyOf(e.name).value;
        assert fams == fams[..n] + [fams[n]];
        assert HasKey(fams, k) <==> HasKey(fams[..n], k) || fams[n].place.key == k;
        assert fams[n].place.key == k ==> !HasKey(fams[..n], k);
      }
    }
  }

  lemma {:induction false} AllTogether(q: Query, root: string, entries: seq<Entry>, fams: seq<Family>)
    requires forall i, j :: 0 <= i < j < |fams| ==> fams[i].place.key != fams[j].place.key
    requires forall e :: e in entries && Admitted(q, root, e) ==> HasKey(fams, KeyOf(e.name).value)
    ensures Together(q, root, entries, fams) == Admissions(q, root, entries)
  {
    hide KeyOf, Join, Excluded;
    if entries == [] {
      NoneTogether(q, root, fams);
    } else {
      AllTogether(q, root, entries[..|entries| - 1], fams);
      OneMoreEntry(q, root, entries, fams);
      assert entries[|entries| - 1] in entries;
    }
  }

  lemma {:induction false} NoneTogether(q: Query, root: string, fams: seq<Family>)
    ensures Together(q, root, [], fams) == 0
  {
    if fams != [] {
      NoneTogether(q, root, fams[..|fams| - 1]);
    }
  }

  lemma {:induction false} ListedTogether(q: Query, root: string, entries: seq<Entry>, fams: seq<Family>)
    requires forall f :: f in fams ==> Reports(q, root, entries, f)
    ensures Listed(fams) == Together(q, root, entries, fams)
  {
    hide MembersOf;
    if fams != [] {
      var n := |fams| - 1;
      assert fams[n] in fams;
      ListedTogether(q, root, entries, fams[..n]);
      PermutationMembers(fams[n].members, MembersOf(q, root, entries, fams[n].place.key));
    }
  }

  /** The families listed have as many members in all as there are admitted entries. */
  lemma ListingLosesNothing(q: Query, root: string, entries: seq<Entry>, fams: seq<Family>)
    requires IsListing(q, root, entries, fams)
    ensures Listed(fams) == Admissions(q, root, entries)
  {
    hide KeyOf, Join, Excluded, Handle, HandleNotAfter;
    forall i, j | 0 <= i < j < |fams| ensures fams[i].place.key != fams[j].place.key {
      assert fams[i] in fams && fams[j] in fams;
      assert fams[i].place != fams[j].place;
    }
    AllTogether(q, root, entries, fams);
    ListedTogether(q, root, entries, fams);
  }

  // ---- Finding a family again ----

  function WithoutSkips(q: Query): Query {
    q.(skip := {})
  }

  /** The handle reads as a place, and there is an entry of that family there now. */
  predicate Findable(dirs: Directories, handle: string, q: Query) {
    var place := ParseHandle(handle);
    && place.Some? && place.value.root in dirs
    && MembersOf(WithoutSkips(q), place.value.root, dirs[place.value.root], place.value.key) != []
  }

  method FamilyForHandle(dirs: Directories, handle: string, q: Query) returns (found: Option<Family>)
    ensures found.Some? <==> Findable(dirs, handle, q)
    ensures found.Some? ==>
              && ParseHandle(handle) == Some(found.value.place)
              && Reports(WithoutSkips(q), found.value.place.root, dirs[found.value.place.root], found.value)
  {
    hide ParseHandle, KeyOf, Join, Excluded, Handle, MembersOf;
    var place := ParseHandle(handle);
    if place.None? {
      return None;
    }
    var Place(root, key) := place.value;
    var fams := ListFamilies(dirs, root, WithoutSkips(q));
    for i := 0 to |fams|
      invariant forall j :: 0 <= j < i ==> fams[j].place.key != key
    {
      if fams[i].place.key == key {
        assert fams[i] in fams;
        PermutationMembers(fams[i].members, MembersOf(WithoutSkips(q), root, dirs[root], key));
        return Some(fams[i]);
      }
    }
    if root in dirs && MembersOf(WithoutSkips(q), root, dirs[root], key) != [] {
      IsListed(WithoutSkips(q), root, dirs[root], fams, key);
    }
    return None;
  }

  lemma IsListed(q: Query, root: string, entries: seq<Entry>, fams: seq<Family>, k: Key)
    requires IsListing(q, root, entries, fams) && MembersOf(q, root, entries, k) != []
    ensures HasKey(fams, k)
  {
    hide KeyOf, Join, Excluded, Handle;
    MembersAreEntries(q, root, entries, k, MembersOf(q, root, entries, k)[0]);
    var e :| e in entries && Joins(q, root, e, k);
    assert HasKey(fams, KeyOf(e.name).value);
  }

  lemma SkipsOnlySkip(q: Query, root: string, e: Entry)
    ensures Admitted(q, root, e) <==> Admitted(WithoutSkips(q), root, e) && Join(root, e.name) !in q.skip
  {
    hide KeyOf, Join;
  }

  /** A family a scan reported is found again from its handle, in the same directory, exactly when
      its members are not named by one separator and digits. */
  lemma FoundAgainIff(dirs: Directories, root: string, q: Query, f: Family)
    requires root in dirs && CleanRoot(root) && EntryNames(dirs[root]) && Reports(q, root, dirs[root], f)
    ensures Findable(dirs, Handle(f.place), q) <==> !SeparatorThenDigits(Base(f.members[0]))
    ensures Findable(dirs, Handle(f.place), q) ==> ParseHandle(Handle(f.place)) == Some(f.place)
  {
    hide KeyOf, Join, Excluded, Handle, ParseHandle, Base, CleanRoot;
    var entries, k := dirs[root], f.place.key;
    PermutationMembers(f.members, MembersOf(q, root, entries, k));
    MembersAreEntries(q, root, entries, k, f.members[0]);
    var e :| e in entries && Joins(q, root, e, k) && Join(root, e.name) == f.members[0];
    JoinParts(root, e.name);
    HandleRoundTrip(root, e.name);
    SkipsOnlySkip(q, root, e);
    HasMembers(WithoutSkips(q), root, entries, e);
    assert f.place == Place(root, k);
  }

  /** What is found again holds every member the scan reported; any more are paths the scan skipped. */
  lemma FoundAgainHolds(q: Query, root: string, entries: seq<Entry>, f: Family, g: Family, path: string)
    requires Reports(q, root, entries, f) && Reports(WithoutSkips(q), root, entries, g) && f.place == g.place
    ensures path in f.members <==> path in g.members && path !in q.skip
  {
    hide KeyOf, Join, Excluded;
    var k := f.place.key;
    PermutationMembers(f.members, MembersOf(q, root, entries, k));
    PermutationMembers(g.members, MembersOf(WithoutSkips(q), root, entries, k));
    if path in f.members {
      MembersAreEntries(q, root, entries, k, path);
      var e :| e in entries && Joins(q, root, e, k) && Join(root, e.name) == path;
      SkipsOnlySkip(q, root, e);
      HasMembers(WithoutSkips(q), root, entries, e);
    }
    if path in g.members && path !in q.skip {
      MembersAreEntries(WithoutSkips(q), root, entries, k, path);
      var e :| e in entries && Joins(WithoutSkips(q), root, e, k) && Join(root, e.name) == path;
      SkipsOnlySkip(q, root, e);
      HasMembers(q, root, entries, e);
    }
  }
}
