/**
 * The bkmr stores of bkmr.rs: which database files are listed, the display names they get, and the
 * references minted under those names. The file system is an input: what each path resolves to.
 */
module StoreNames {
  import opened Prelude
  import opened Tokens
  import opened Selections

  /** A path with what the file system says of it: its stem and parent name, and its canonical form. */
  datatype File = File(path: string, stem: Option<string>, parent: string, resolved: string, isFile: bool)

  datatype Store = Store(name: string, file: File)

  // ------------------------------------------------------------------ numbering

  function Numbered(base: string, n: nat): string {
    base + "-" + Decimal(n)
  }

  lemma NumberedIsInjective(base: string, m: nat, n: nat)
    requires Numbered(base, m) == Numbered(base, n)
    ensures m == n
  {
    assert Numbered(base, m)[|base| + 1..] == Decimal(m);
    assert Numbered(base, n)[|base| + 1..] == Decimal(n);
    DecimalIsInjective(m, n);
  }

  // ------------------------------------------------------------------ display names

  function Qualified(stem: string, parent: string): string {
    if parent == "" then Numbered(stem, 2) else parent + "/" + stem
  }

  /** The names tried in turn: the stem, the qualified stem, then that with 2, 3, 4 and so on. */
  function Candidate(stem: string, parent: string, k: nat): string {
    if k == 0 then stem
    else if k == 1 then Qualified(stem, parent)
    else Numbered(Qualified(stem, parent), k)
  }

  /** Used names that a later number would still give. */
  ghost function Ahead(base: string, used: set<string>, suffix: nat): set<string> {
    set u | u in used && exists n :: n >= suffix && u == Numbered(base, n)
  }

  lemma AheadShrinks(base: string, used: set<string>, suffix: nat)
    requires Numbered(base, suffix) in used
    ensures Ahead(base, used, suffix + 1) < Ahead(base, used, suffix)
  {
    var taken := Numbered(base, suffix);
    forall n | n >= suffix + 1 ensures Numbered(base, n) != taken {
      if Numbered(base, n) == taken { NumberedIsInjective(base, n, suffix); }
    }
    assert taken in Ahead(base, used, suffix) && taken !in Ahead(base, used, suffix + 1);
  }

  /** The candidates are pairwise different: the first three kinds grow in length. */
  lemma CandidatesDiffer(stem: string, parent: string, j: nat, k: nat)
    requires j < k
    ensures Candidate(stem, parent, j) != Candidate(stem, parent, k)
  {
    var qualified := Qualified(stem, parent);
    assert |stem| < |qualified| && forall n: nat :: |qualified| < |Numbered(qualified, n)|;
    if 2 <= j && Numbered(qualified, j) == Numbered(qualified, k) {
      NumberedIsInjective(qualified, j, k);
    }
  }

  /** The first n candidates, all used, are n used names: the search cannot outlast the set. */
  lemma {:induction false} NoMoreThanUsed(stem: string, parent: string, used: set<string>, n: nat)
    requires forall k :: 0 <= k < n ==> Candidate(stem, parent, k) in used
    ensures n <= |used|
    decreases n
  {
    if 0 < n {
      var last := Candidate(stem, parent, n - 1);
      forall k | 0 <= k < n - 1 ensures Candidate(stem, parent, k) in used - {last} {
        CandidatesDiffer(stem, parent, k, n - 1);
      }
      NoMoreThanUsed(stem, parent, used - {last}, n - 1);
    }
  }

  /** The name is the first candidate not in use, and it is found within |used| + 1 of them. */
  ghost predicate FirstFree(stem: string, parent: string, used: set<string>, name: string) {
    exists k: nat :: k <= |used| && name == Candidate(stem, parent, k) && name !in used
                && forall j :: 0 <= j < k ==> Candidate(stem, parent, j) in used
  }

  method UniqueDisplayName(stem: string, parent: string, used: set<string>) returns (name: string, after: set<string>)
    ensures stem == "" ==> name == "" && after == used
    ensures stem != "" ==> FirstFree(stem, parent, used, name) && after == used + {name} && name != ""
  {
    if stem == "" {
      return stem, used;
    }
    if stem !in used {
      assert Candidate(stem, parent, 0) == stem;
      return stem, used + {stem};
    }
    var qualified := if parent == "" then Numbered(stem, 2) else parent + "/" + stem;
    if qualified !in used {
      NoMoreThanUsed(stem, parent, used, 1);
      assert Candidate(stem, parent, 1) == qualified;
      return qualified, used + {qualified};
    }
    var suffix := 2;
    while Numbered(qualified, suffix) in used
      invariant 2 <= suffix
      invariant forall k :: 2 <= k < suffix ==> Numbered(qualified, k) in used
      decreases Ahead(qualified, used, suffix)
    {
      AheadShrinks(qualified, used, suffix);
      suffix := suffix + 1;
    }
    assert forall k :: 2 <= k < suffix ==> Candidate(stem, parent, k) == Numbered(qualified, k);
    NoMoreThanUsed(stem, parent, used, suffix);
    assert Candidate(stem, parent, suffix) == Numbered(qualified, suffix);
    name := Numbered(qualified, suffix);
    after := used + {name};
  }

  // ------------------------------------------------------------------ discovery

  predicate Contains(s: string, part: string) {
    part <= s || (s != "" && Contains(s[1..], part))
  }

  predicate EndsWith(s: string, part: string) {
    |part| <= |s| && s[|s| - |part|..] == part
  }

  predicate IsBackup(name: string) {
    Contains(name, "_backup_") || EndsWith(name, "-backup") || Contains(name, ".backup")
  }

  /** A project database that can be listed: it has a stem, that is not a backup's, and is a file. */
  predicate Eligible(f: File) {
    f.stem.Some? && f.stem.value != "" && !IsBackup(f.stem.value) && f.isFile
  }

  ghost predicate NamesDistinct(stores: seq<Store>) {
    forall i, j :: 0 <= i < j < |stores| ==> stores[i].name != stores[j].name
  }

  ghost predicate FilesDistinct(stores: seq<Store>) {
    forall i, j :: 0 <= i < j < |stores| ==> stores[i].file.resolved != stores[j].file.resolved
  }

  ghost predicate Listed(stores: seq<Store>, f: File) {
    exists i :: 0 <= i < |stores| && stores[i].file.resolved == f.resolved
  }

  /** What the two loops share: which names are in use and which files are seen is what is listed. */
  ghost predicate Kept(stores: seq<Store>, seen: set<string>, names: set<string>) {
    && NamesDistinct(stores) && FilesDistinct(stores)
    && (forall i :: 0 <= i < |stores| ==> stores[i].name in names || stores[i].name == "")
    && (forall r :: r in seen <==> exists i :: 0 <= i < |stores| && stores[i].file.resolved == r)
  }

  lemma KeptAfterPush(stores: seq<Store>, seen: set<string>, names: set<string>, s: Store)
    requires Kept(stores, seen, names) && s.file.resolved !in seen && s.name !in names
    requires s.name != "" || stores == []
    ensures Kept(stores + [s], seen + {s.file.resolved}, names + {s.name})
  {
    var after, n := stores + [s], |stores|;
    assert forall i :: 0 <= i < n ==> after[i] == stores[i];
    assert after[n] == s;
    forall r ensures r in seen + {s.file.resolved} <==> exists i :: 0 <= i < |after| && after[i].file.resolved == r {
      if r in seen {
        var i :| 0 <= i < n && stores[i].file.resolved == r;
        assert after[i].file.resolved == r;
      }
      if r == s.file.resolved { assert after[n].file.resolved == r; }
    }
  }

  /** The names in use; an empty one claims nothing. */
  function NamesOf(stores: seq<Store>): set<string> {
    if stores == [] then {}
    else NamesOf(stores[..|stores| - 1]) + if stores[|stores| - 1].name != "" then {stores[|stores| - 1].name} else {}
  }

  /** A store is named for its own file: the first candidate of its stem and parent that is not in use,
      and nothing for an empty stem. */
  ghost predicate Named(s: Store, stem: string, used: set<string>) {
    if stem == "" then s.name == "" else FirstFree(stem, s.file.parent, used, s.name)
  }

  /** Each store is named in its turn, given the names before it. */
  ghost predicate NamedInTurn(stores: seq<Store>, stems: seq<string>)
    requires |stores| == |stems|
  {
    stores == [] ||
    (var n := |stores| - 1;
     NamedInTurn(stores[..n], stems[..n]) && Named(stores[n], stems[n], NamesOf(stores[..n])))
  }

  lemma NamedPush(stores: seq<Store>, stems: seq<string>, s: Store, stem: string)
    requires |stores| == |stems| && NamedInTurn(stores, stems) && Named(s, stem, NamesOf(stores))
    ensures NamedInTurn(stores + [s], stems + [stem])
    ensures NamesOf(stores + [s]) == NamesOf(stores) + if s.name != "" then {s.name} else {}
  {
    assert (stores + [s])[..|stores|] == stores && (stems + [stem])[..|stores|] == stems;
  }

  /** Adding one file, as both loops do once they have settled on its stem. */
  method ListFile(f: File, stem: string, stores: seq<Store>, seen: set<string>, names: set<string>)
    returns (storesAfter: seq<Store>, seenAfter: set<string>, namesAfter: set<string>)
    requires Kept(stores, seen, names) && (stem != "" || stores == [])
    requires "" !in names && names == NamesOf(stores)
    ensures Kept(storesAfter, seenAfter, namesAfter) && "" !in namesAfter && namesAfter == NamesOf(storesAfter)
    ensures if f.isFile && f.resolved !in seen
            then |storesAfter| == |stores| + 1 && storesAfter == stores + [storesAfter[|stores|]]
                 && storesAfter[|stores|].file == f && Named(storesAfter[|stores|], stem, names)
            else storesAfter == stores
    ensures seenAfter == if f.isFile then seen + {f.resolved} else seen
  {
    storesAfter, seenAfter, namesAfter := stores, seen, names;
    if f.isFile && f.resolved !in seen {
      var name;
      name, namesAfter := UniqueDisplayName(stem, f.parent, names);
      seenAfter := seen + {f.resolved};
      storesAfter := stores + [Store(name, f)];
      KeptAfterPush(stores, seen, names, Store(name, f));
      assert storesAfter[..|stores|] == stores;
    }
  }

  predicate ActiveListed(active: Option<File>) {
    active.Some? && active.value.isFile
  }

  /** An eligible database whose file neither the active store nor an eligible one before it has. */
  predicate FirstOfItsFile(active: Option<File>, projects: seq<File>, j: nat)
    requires j < |projects|
  {
    && Eligible(projects[j]) && (ActiveListed(active) ==> active.value.resolved != projects[j].resolved)
    && forall i :: 0 <= i < j && Eligible(projects[i]) ==> projects[i].resolved != projects[j].resolved
  }

  function StemAt(f: File, otherwise: string): string {
    match f.stem case Some(stem) => stem case None => otherwise
  }

  function FilesOf(stores: seq<Store>): seq<File> {
    seq(|stores|, i requires 0 <= i < |stores| => stores[i].file)
  }

  function PickedFrom(projects: seq<File>, picks: seq<nat>): seq<File>
    requires Places(picks, |projects|)
  {
    seq(|picks|, q requires 0 <= q < |picks| => projects[picks[q]])
  }

  function StemsIn(files: seq<File>): seq<string> {
    seq(|files|, q requires 0 <= q < |files| => StemAt(files[q], ""))
  }

  /** The active store first, when its file is there, and then these databases. */
  function InOrder(active: Option<File>, files: seq<File>): seq<File> {
    (if ActiveListed(active) then [active.value] else []) + files
  }

  function StemsOf(active: Option<File>, files: seq<File>): seq<string> {
    (if ActiveListed(active) then [StemAt(active.value, "active")] else []) + StemsIn(files)
  }

  /** Exactly these databases are listed, in this order, each named in its turn. */
  ghost predicate Lists(stores: seq<Store>, active: Option<File>, files: seq<File>) {
    && FilesOf(stores) == InOrder(active, files)
    && |stores| == |StemsOf(active, files)| && NamedInTurn(stores, StemsOf(active, files))
  }

  lemma PickedPush(projects: seq<File>, picks: seq<nat>, k: nat)
    requires Places(picks, k) && k < |projects|
    ensures Places(picks + [k], |projects|)
    ensures PickedFrom(projects, picks + [k]) == PickedFrom(projects, picks) + [projects[k]]
  {
  }

  lemma OrderPush(active: Option<File>, files: seq<File>, f: File)
    ensures InOrder(active, files + [f]) == InOrder(active, files) + [f]
  {
  }

  lemma StemsPush(active: Option<File>, files: seq<File>, f: File)
    ensures StemsOf(active, files + [f]) == StemsOf(active, files) + [StemAt(f, "")]
  {
    assert StemsIn(files + [f]) == StemsIn(files) + [StemAt(f, "")];
  }

  lemma FilesPush(stores: seq<Store>, s: Store)
    ensures FilesOf(stores + [s]) == FilesOf(stores) + [s.file]
  {
  }

  lemma ListsPush(stores: seq<Store>, active: Option<File>, files: seq<File>, s: Store)
    requires Lists(stores, active, files) && Named(s, StemAt(s.file, ""), NamesOf(stores))
    ensures Lists(stores + [s], active, files + [s.file])
  {
    OrderPush(active, files, s.file);
    StemsPush(active, files, s.file);
    FilesPush(stores, s);
    NamedPush(stores, StemsOf(active, files), s, StemAt(s.file, ""));
  }

  lemma ListsActive(active: Option<File>, s: Store)
    requires ActiveListed(active) && s.file == active.value && Named(s, StemAt(active.value, "active"), {})
    ensures Lists([s], active, [])
  {
    var stem := StemAt(active.value, "active");
    NamedPush([], [], s, stem);
    assert [] + [s] == [s] && [] + [stem] == [stem];
    assert FilesOf([s]) == [active.value] && InOrder(active, []) == [active.value];
    assert StemsIn([]) == [] && StemsOf(active, []) == [stem];
  }

  /** The files seen before the kth project. */
  ghost predicate SeenSoFar(seen: set<string>, active: Option<File>, projects: seq<File>, k: nat)
    requires k <= |projects|
  {
    forall r :: r in seen <==>
      (ActiveListed(active) && active.value.resolved == r)
      || exists i :: 0 <= i < k && Eligible(projects[i]) && projects[i].resolved == r
  }

  lemma SeenDecides(seen: set<string>, active: Option<File>, projects: seq<File>, k: nat)
    requires k < |projects| && SeenSoFar(seen, active, projects, k)
    ensures FirstOfItsFile(active, projects, k) <==> Eligible(projects[k]) && projects[k].resolved !in seen
  {
  }

  lemma SeenNext(seen: set<string>, active: Option<File>, projects: seq<File>, k: nat)
    requires k < |projects| && SeenSoFar(seen, active, projects, k)
    ensures SeenSoFar(if Eligible(projects[k]) then seen + {projects[k].resolved} else seen, active, projects, k + 1)
  {
  }

  /** The first of their files before place k. */
  ghost predicate FirstPicked(active: Option<File>, projects: seq<File>, picks: seq<nat>, k: nat)
    requires k <= |projects|
  {
    Places(picks, k) && forall j :: 0 <= j < k ==> (j in picks <==> FirstOfItsFile(active, projects, j))
  }

  lemma FirstPickedNext(active: Option<File>, projects: seq<File>, picks: seq<nat>, k: nat)
    requires k < |projects| && FirstPicked(active, projects, picks, k)
    ensures FirstPicked(active, projects, if FirstOfItsFile(active, projects, k) then picks + [k] else picks, k + 1)
  {
    PlacesPush(picks, k, FirstOfItsFile(active, projects, k));
  }

  /** What holds before the kth project. */
  ghost predicate Underway(stores: seq<Store>, seen: set<string>, names: set<string>, active: Option<File>,
                           projects: seq<File>, picks: seq<nat>, k: nat)
    requires k <= |projects|
  {
    && Kept(stores, seen, names) && "" !in names && names == NamesOf(stores)
    && FirstPicked(active, projects, picks, k) && Lists(stores, active, PickedFrom(projects, picks))
    && SeenSoFar(seen, active, projects, k)
  }

  lemma Begun(stores: seq<Store>, seen: set<string>, names: set<string>, active: Option<File>, projects: seq<File>)
    requires Kept(stores, seen, names) && "" !in names && names == NamesOf(stores)
    requires if ActiveListed(active)
             then |stores| == 1 && stores[0].file == active.value
                  && Named(stores[0], StemAt(active.value, "active"), {}) && seen == {active.value.resolved}
             else stores == [] && seen == {}
    ensures Underway(stores, seen, names, active, projects, [], 0)
  {
    assert PickedFrom(projects, []) == [];
    if ActiveListed(active) {
      assert stores == [stores[0]];
      ListsActive(active, stores[0]);
    } else {
      assert FilesOf(stores) == [] && InOrder(active, []) == [] && StemsOf(active, []) == [];
    }
  }

  lemma Skipped(stores: seq<Store>, seen: set<string>, names: set<string>, active: Option<File>, projects: seq<File>,
                picks: seq<nat>, k: nat)
    requires k < |projects| && Underway(stores, seen, names, active, projects, picks, k) && !Eligible(projects[k])
    ensures Underway(stores, seen, names, active, projects, picks, k + 1)
  {
    SeenDecides(seen, active, projects, k);
    SeenNext(seen, active, projects, k);
    FirstPickedNext(active, projects, picks, k);
  }

  lemma Taken(stores: seq<Store>, seen: set<string>, names: set<string>, active: Option<File>, projects: seq<File>,
              picks: seq<nat>, k: nat, after: seq<Store>, seenAfter: set<string>, namesAfter: set<string>)
    returns (more: seq<nat>)
    requires k < |projects| && Underway(stores, seen, names, active, projects, picks, k) && Eligible(projects[k])
    requires Kept(after, seenAfter, namesAfter) && "" !in namesAfter && namesAfter == NamesOf(after)
    requires seenAfter == seen + {projects[k].resolved}
    requires if projects[k].resolved !in seen
             then |after| == |stores| + 1 && after == stores + [after[|stores|]]
                  && after[|stores|].file == projects[k] && Named(after[|stores|], StemAt(projects[k], ""), names)
             else after == stores
    ensures Underway(after, seenAfter, namesAfter, active, projects, more, k + 1)
  {
    SeenDecides(seen, active, projects, k);
    SeenNext(seen, active, projects, k);
    FirstPickedNext(active, projects, picks, k);
    more := if FirstOfItsFile(active, projects, k) then picks + [k] else picks;
    if FirstOfItsFile(active, projects, k) {
      PickedPush(projects, picks, k);
      ListsPush(stores, active, PickedFrom(projects, picks), after[|stores|]);
    }
  }

  /** discover_bkmr_stores: the active database, then the project databases in order. Whatever the
      directory holds, no two stores share a name or a file, and what is listed is the active store and
      the first eligible database of each other file, in order, each named in its turn. */
  method DiscoverStores(active: Option<File>, projects: seq<File>) returns (stores: seq<Store>, ghost picks: seq<nat>)
    ensures NamesDistinct(stores) && FilesDistinct(stores)
    ensures FirstPicked(active, projects, picks, |projects|) && Lists(stores, active, PickedFrom(projects, picks))
  {
    stores, picks := [], [];
    var seen: set<string> := {};
    var names: set<string> := {};
    if active.Some? {
      var stem := match active.value.stem case Some(stem) => stem case None => "active";
      stores, seen, names := ListFile(active.value, stem, stores, seen, names);
    }
    Begun(stores, seen, names, active, projects);
    for k := 0 to |projects|
      invariant Underway(stores, seen, names, active, projects, picks, k)
    {
      var f := projects[k];
      var stem := match f.stem case Some(stem) => stem case None => "";
      if stem == "" || IsBackup(stem) {
        Skipped(stores, seen, names, active, projects, picks, k);
        continue;
      }
      ghost var was, seenBefore, used := stores, seen, names;
      stores, seen, names := ListFile(f, stem, stores, seen, names);
      if f.isFile {
        picks := Taken(was, seenBefore, used, active, projects, picks, k, stores, seen, names);
      } else {
        Skipped(was, seenBefore, used, active, projects, picks, k);
      }
    }
  }

  // ------------------------------------------------------------------ minted references

  const PREFIX := "source:bkmr:"

  function Mint(store: string, id: string): string {
    PREFIX + store + ":" + id
  }

  datatype ReadPlan = NotMinted | OutOfScope | NoSuchStore | Show(store: Store, id: string)

  /** The first colon, or the length when there is none. */
  function FirstColon(s: string): (k: nat)
    ensures k <= |s| && (k < |s| ==> s[k] == ':')
    ensures forall i :: 0 <= i < k ==> s[i] != ':'
  {
    if s == "" || s[0] == ':' then 0 else 1 + FirstColon(s[1..])
  }

  predicate AllDigits(id: string) {
    forall i :: 0 <= i < |id| ==> '0' <= id[i] <= '9'
  }

  function StoreFor(stores: seq<Store>, name: string): (r: Option<Store>)
    ensures r.Some? ==> r.value in stores && r.value.name == name
    ensures r.None? ==> forall s :: s in stores ==> s.name != name
  {
    if stores == [] then None
    else if stores[0].name == name then assert stores[0] in stores; Some(stores[0])
    else
      assert forall s :: s in stores <==> s == stores[0] || s in stores[1..];
      StoreFor(stores[1..], name)
  }

  /** What read does with a reference before it asks bkmr to show anything. */
  function PlanRead(stores: seq<Store>, raw: string): ReadPlan {
    if !(PREFIX <= raw) then NotMinted
    else
      var rest := raw[|PREFIX|..];
      var k := FirstColon(rest);
      if k == |rest| then OutOfScope
      else
        match StoreFor(stores, rest[..k])
        case None => NoSuchStore
        case Some(store) => if AllDigits(rest[k + 1..]) then Show(store, rest[k + 1..]) else OutOfScope
  }

  predicate ColonFree(s: string) {
    forall i :: 0 <= i < |s| ==> s[i] != ':'
  }

  /** A reference minted for a listed store reads back to that store and id exactly when the store's
      name has no colon and the id is all digits; otherwise it reads back to nothing. */
  lemma MintedReadsBack(stores: seq<Store>, store: Store, id: string)
    requires NamesDistinct(stores) && store in stores
    ensures PlanRead(stores, Mint(store.name, id)) == Show(store, id) <==> ColonFree(store.name) && AllDigits(id)
    ensures PlanRead(stores, Mint(store.name, id)).Show? <==> ColonFree(store.name) && AllDigits(id)
  {
    var raw := Mint(store.name, id);
    var rest := raw[|PREFIX|..];
    assert rest == store.name + ":" + id;
    var k := FirstColon(rest);
    assert rest[|store.name|] == ':';
    if ColonFree(store.name) {
      assert forall i :: 0 <= i < |store.name| ==> rest[i] == store.name[i];
      assert k == |store.name|;
      assert rest[..k] == store.name && rest[k + 1..] == id;
      OnlyStoreOfItsName(stores, store);
    } else {
      var c :| 0 <= c < |store.name| && store.name[c] == ':';
      assert rest[c] == ':' && k <= c;
      var tail := rest[k + 1..];
      assert tail[|store.name| - k - 1] == ':';
      assert !AllDigits(tail);
    }
  }

  lemma OnlyStoreOfItsName(stores: seq<Store>, store: Store)
    requires NamesDistinct(stores) && store in stores
    ensures StoreFor(stores, store.name) == Some(store)
  {
    var found := StoreFor(stores, store.name);
    var i :| 0 <= i < |stores| && stores[i] == store;
    var j :| 0 <= j < |stores| && stores[j] == found.value;
    assert i == j by { if i < j {} else if j < i {} }
  }
}
