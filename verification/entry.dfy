/** What `listentry` makes of one child of an uninstall key, and what
    `listapps` makes of all children of one: the specification the methods of
    AppList are proved against. */
module Entry {
  import opened Store

  /** One installed application. */
  datatype ProductEntry = ProductEntry(name: string, publisher: string, version: string, size: uint64)

  /** The value the reused entry is reset to before it is filled. */
  const Cleared: ProductEntry := ProductEntry("", "", "", 0)

  /** The three column-width trackers maxname, maxver and maxpub. */
  datatype Widths = Widths(name: nat, ver: nat, pub: nat)

  /** Their initial values. */
  const InitialWidths: Widths := Widths(10, 10, 10)

  /** The largest size an entry can carry: the largest DWORD number of kilobytes. */
  const MAX_ENTRY_SIZE: nat := (TWO32 - 1) * 1024

  /** The nested key tried when a child cannot be opened as itself. */
  const INSTALL_PROPERTIES: string := "\\InstallProperties"

  function Max(a: nat, b: nat): (m: nat)
    ensures m >= a && m >= b && (m == a || m == b)
  {
    if a < b then b else a
  }

  /** EstimatedSize in kilobytes widened to 64 bits and multiplied by 1024:
      the multiplication never wraps. */
  function KbToBytes(kb: uint32): (b: uint64)
    ensures b == kb * 1024
    ensures b % 1024 == 0 && b <= MAX_ENTRY_SIZE
  {
    (kb * 1024) % TWO64
  }

  /** The key `listentry` reads: the child itself, or else its InstallProperties sub-key. */
  function ResolveEntryKey(store: Store, parent: string, child: string): Option<Handle>
  {
    var direct := Lookup(store, Join(parent, child));
    if direct.Some? then direct else Lookup(store, Join(parent, child + INSTALL_PROPERTIES))
  }

  /** The SystemComponent flag, 0 when it cannot be read. */
  function SystemComponent(k: Key): uint32
  {
    match QueryDword(k, "SystemComponent")
    case Some(v) => v
    case None => 0
  }

  /** The three filters of `listentry`, in the order it applies them. */
  predicate Admitted(k: Key)
  {
    && SystemComponent(k) == 0
    && !HasValue(k, "ParentDisplayName")
    && QueryString(k, "DisplayName").Some?
  }

  function TextOr(r: Option<StrData>): string
  {
    match r
    case Some(d) => d.text
    case None => ""
  }

  function SizeOf(k: Key): uint64
  {
    match QueryDword(k, "EstimatedSize")
    case Some(kb) => KbToBytes(kb)
    case None => 0
  }

  /** The entry an admitted key yields: optional fields that cannot be read
      keep the cleared value. */
  function EntryOf(k: Key): ProductEntry
    requires Admitted(k)
  {
    ProductEntry(
      name := QueryString(k, "DisplayName").value.text,
      publisher := TextOr(QueryString(k, "Publisher")),
      version := TextOr(QueryString(k, "DisplayVersion")),
      size := SizeOf(k))
  }

  /** The entry `listentry` accepts for `child` below `parent`, if any. */
  function Extract(store: Store, parent: string, child: string): (r: Option<ProductEntry>)
    ensures r.Some? ==> SizeWellFormed(r.value)
    ensures r.Some? ==>
      && |r.value.name| < MAX_PATH / WCHAR_SIZE
      && |r.value.version| < MAX_PATH / WCHAR_SIZE
      && |r.value.publisher| < MAX_PATH / WCHAR_SIZE
  {
    match ResolveEntryKey(store, parent, child)
    case None => None
    case Some(h) => if Admitted(h.key) then Some(EntryOf(h.key)) else None
  }

  /** A string query on the key `listentry` resolves for `child`. */
  function ResolvedQuery(store: Store, parent: string, child: string, name: string): Option<StrData>
  {
    match ResolveEntryKey(store, parent, child)
    case None => None
    case Some(h) => QueryString(h.key, name)
  }

  /** max(tracker, dwSize / sizeof(wchar_t)) after a successful query. */
  function Raise(w: nat, r: Option<StrData>): nat
  {
    match r
    case Some(d) => Max(w, d.size / WCHAR_SIZE)
    case None => w
  }

  /** The trackers after `listentry` has run on `child`. */
  function WidthsAfter(w: Widths, store: Store, parent: string, child: string): (v: Widths)
    ensures Covers(w, v)
  {
    match ResolveEntryKey(store, parent, child)
    case None => w
    case Some(h) =>
      if Admitted(h.key) then
        Widths(
          Raise(w.name, QueryString(h.key, "DisplayName")),
          Raise(w.ver, QueryString(h.key, "DisplayVersion")),
          Raise(w.pub, QueryString(h.key, "Publisher")))
      else w
  }

  /** The trackers `v` are at least the trackers `w`. */
  predicate Covers(w: Widths, v: Widths)
  {
    v.name >= w.name && v.ver >= w.ver && v.pub >= w.pub
  }

  /** Every text column of `e` is narrower than the trackers. */
  predicate Fits(e: ProductEntry, w: Widths)
  {
    |e.name| < w.name && |e.version| < w.ver && |e.publisher| < w.pub
  }

  /** A size that came out of KbToBytes, or 0. */
  predicate SizeWellFormed(e: ProductEntry)
  {
    e.size % 1024 == 0 && e.size <= MAX_ENTRY_SIZE
  }

  /** Every entry of `ps` fits the trackers `w` and has a well-formed size. */
  predicate AllFit(ps: seq<ProductEntry>, w: Widths)
  {
    forall e :: e in ps ==> Fits(e, w) && SizeWellFormed(e)
  }

  /** Raising the trackers keeps every entry fitting them. */
  lemma AllFitCovers(ps: seq<ProductEntry>, w: Widths, v: Widths)
    requires AllFit(ps, w) && Covers(w, v)
    ensures AllFit(ps, v)
  {
  }

  /** Appending an entry that fits keeps every entry fitting. */
  lemma AllFitAppend(ps: seq<ProductEntry>, e: ProductEntry, w: Widths)
    requires AllFit(ps, w) && Fits(e, w) && SizeWellFormed(e)
    ensures AllFit(ps + [e], w)
  {
    assert forall x :: x in ps + [e] ==> x in ps || x == e;
  }

  /** The entries `listapps` appends for the enumerated child names, in order. */
  function Collect(store: Store, parent: string, children: seq<string>): (r: seq<ProductEntry>)
    ensures |r| <= |children|
    ensures forall e :: e in r ==> SizeWellFormed(e)
  {
    if children == [] then []
    else
      var before := Collect(store, parent, children[..|children| - 1]);
      match Extract(store, parent, children[|children| - 1])
      case Some(e) => before + [e]
      case None => before
  }

  /** The trackers after `listentry` has run on every enumerated child name. */
  function CollectWidths(w: Widths, store: Store, parent: string, children: seq<string>): Widths
  {
    if children == [] then w
    else WidthsAfter(CollectWidths(w, store, parent, children[..|children| - 1]), store, parent, children[|children| - 1])
  }

  /** The entries `listapps(root, appkey)` appends. */
  function Scan(store: Store, root: string, appkey: string): (r: seq<ProductEntry>)
    ensures |r| <= if Join(root, appkey) in store then |store[Join(root, appkey)].children| else 0
  {
    match Lookup(store, Join(root, appkey))
    case None => []
    case Some(h) => Collect(store, h.path, h.key.children)
  }

  /** The trackers after `listapps(root, appkey)`. */
  function ScanWidths(w: Widths, store: Store, root: string, appkey: string): Widths
  {
    match Lookup(store, Join(root, appkey))
    case None => w
    case Some(h) => CollectWidths(w, store, h.path, h.key.children)
  }

  // ---------------------------------------------------------------------
  // listentry

  /** A child is accepted exactly when it opens (directly, or else as its
      InstallProperties sub-key), SystemComponent is absent or zero,
      ParentDisplayName is absent, and DisplayName can be read. */
  lemma AcceptedIff(store: Store, parent: string, child: string)
    ensures Extract(store, parent, child).Some? <==>
      var direct := Join(parent, child);
      var nested := Join(parent, child + INSTALL_PROPERTIES);
      && (direct in store || nested in store)
      && var k := if direct in store then store[direct] else store[nested];
      && !("SystemComponent" in k.values && k.values["SystemComponent"].Dword? && k.values["SystemComponent"].d != 0)
      && "ParentDisplayName" !in k.values
      && "DisplayName" in k.values && k.values["DisplayName"].Str?
      && DataSize(k.values["DisplayName"].s) <= MAX_PATH
  {
  }

  /** An accepted entry holds what the resolved key holds and nothing else:
      optional values that cannot be read give "" and 0, whatever an earlier
      child left in the reused entry. */
  lemma AcceptedEntryFields(store: Store, parent: string, child: string)
    requires Extract(store, parent, child).Some?
    ensures ResolveEntryKey(store, parent, child).Some?
    ensures
      var e := Extract(store, parent, child).value;
      var k := ResolveEntryKey(store, parent, child).value.key;
      && e.name == CStr(k.values["DisplayName"].s)
      && e.version == (if QueryString(k, "DisplayVersion").Some? then CStr(k.values["DisplayVersion"].s) else "")
      && e.publisher == (if QueryString(k, "Publisher").Some? then CStr(k.values["Publisher"].s) else "")
      && e.size == (if "EstimatedSize" in k.values && k.values["EstimatedSize"].Dword?
                    then k.values["EstimatedSize"].d * 1024 else 0)
  {
  }

  /** A key flagged as a system component is never accepted. */
  lemma SystemComponentExcluded(store: Store, parent: string, child: string, flag: uint32)
    requires ResolveEntryKey(store, parent, child).Some?
    requires var k := ResolveEntryKey(store, parent, child).value.key;
      "SystemComponent" in k.values && k.values["SystemComponent"] == Dword(flag)
    requires flag != 0
    ensures Extract(store, parent, child) == None
  {
  }

  /** The trackers never decrease; they stay put when the child is rejected;
      the version and publisher trackers move only when that value was read;
      and an accepted entry fits the raised trackers. */
  lemma WidthsAfterProps(w: Widths, store: Store, parent: string, child: string)
    ensures Covers(w, WidthsAfter(w, store, parent, child))
    ensures Extract(store, parent, child).None? ==> WidthsAfter(w, store, parent, child) == w
    ensures WidthsAfter(w, store, parent, child).ver != w.ver ==>
      Extract(store, parent, child).Some? && ResolvedQuery(store, parent, child, "DisplayVersion").Some?
    ensures WidthsAfter(w, store, parent, child).pub != w.pub ==>
      Extract(store, parent, child).Some? && ResolvedQuery(store, parent, child, "Publisher").Some?
    ensures Extract(store, parent, child).Some? ==> SizeWellFormed(Extract(store, parent, child).value)
    ensures Extract(store, parent, child).Some? && w.ver > 0 && w.pub > 0 ==>
      Fits(Extract(store, parent, child).value, WidthsAfter(w, store, parent, child))
  {
  }

  // ---------------------------------------------------------------------
  // listapps

  /** Scanning two runs of child names one after the other appends the
      entries of the first run, then those of the second. */
  lemma {:induction false} CollectAppend(store: Store, parent: string, a: seq<string>, b: seq<string>)
    ensures Collect(store, parent, a + b) == Collect(store, parent, a) + Collect(store, parent, b)
    decreases |b|
  {
    if b == [] {
      assert a + b == a;
    } else {
      var b' := b[..|b| - 1];
      assert (a + b)[..|a + b| - 1] == a + b';
      assert (a + b)[|a + b| - 1] == b[|b| - 1];
      CollectAppend(store, parent, a, b');
    }
  }

  /** A root that cannot be opened contributes nothing and leaves the
      trackers as they were. */
  lemma ScanMissingRoot(w: Widths, store: Store, root: string, appkey: string)
    requires Join(root, appkey) !in store
    ensures Scan(store, root, appkey) == []
    ensures ScanWidths(w, store, root, appkey) == w
  {
  }

  /** Enumerating one more child name appends its accepted entry, if any,
      and raises the trackers as `listentry` does. */
  lemma CollectSnoc(w: Widths, store: Store, parent: string, children: seq<string>, child: string)
    ensures Collect(store, parent, children + [child]) ==
      Collect(store, parent, children) + match Extract(store, parent, child) case Some(e) => [e] case None => []
    ensures CollectWidths(w, store, parent, children + [child]) ==
      WidthsAfter(CollectWidths(w, store, parent, children), store, parent, child)
  {
    assert (children + [child])[..|children|] == children;
  }

  /** One pass of the loop of listapps over the enumerated children: the
      child at `idx` appends its accepted entry and applies WidthsAfter. */
  lemma CollectStep(w: Widths, store: Store, parent: string, children: seq<string>, idx: nat)
    requires idx < |children|
    ensures Collect(store, parent, children[..idx + 1]) ==
      Collect(store, parent, children[..idx]) + match Extract(store, parent, children[idx]) case Some(e) => [e] case None => []
    ensures CollectWidths(w, store, parent, children[..idx + 1]) ==
      WidthsAfter(CollectWidths(w, store, parent, children[..idx]), store, parent, children[idx])
  {
    assert children[..idx + 1] == children[..idx] + [children[idx]];
    CollectSnoc(w, store, parent, children[..idx], children[idx]);
  }

  /** One child name contributes its accepted entry, or nothing. */
  lemma CollectOne(store: Store, parent: string, child: string)
    ensures Collect(store, parent, [child]) ==
      match Extract(store, parent, child) case Some(e) => [e] case None => []
  {
    assert [child][..0] == [];
  }

  /** Every appended entry is the accepted entry of some enumerated child. */
  lemma {:induction false} CollectSound(store: Store, parent: string, children: seq<string>, e: ProductEntry)
    requires e in Collect(store, parent, children)
    ensures exists j :: 0 <= j < |children| && Extract(store, parent, children[j]) == Some(e)
    decreases |children|
  {
    var n := |children| - 1;
    var init := children[..n];
    if e in Collect(store, parent, init) {
      CollectSound(store, parent, init, e);
      var j :| 0 <= j < |init| && Extract(store, parent, init[j]) == Some(e);
      assert children[j] == init[j];
    } else {
      assert Extract(store, parent, children[n]) == Some(e);
    }
  }

  /** The accepted entry of every enumerated child is appended. */
  lemma {:induction false} CollectComplete(store: Store, parent: string, children: seq<string>, j: nat)
    requires j < |children| && Extract(store, parent, children[j]).Some?
    ensures Extract(store, parent, children[j]).value in Collect(store, parent, children)
    decreases |children|
  {
    var n := |children| - 1;
    if j < n {
      var init := children[..n];
      assert init[j] == children[j];
      CollectComplete(store, parent, init, j);
    }
  }

  /** The trackers never decrease over a scan. */
  lemma {:induction false} CollectCovers(w: Widths, store: Store, parent: string, children: seq<string>)
    ensures Covers(w, CollectWidths(w, store, parent, children))
    decreases |children|
  {
    if children != [] {
      var n := |children| - 1;
      CollectCovers(w, store, parent, children[..n]);
      WidthsAfterProps(CollectWidths(w, store, parent, children[..n]), store, parent, children[n]);
    }
  }

  /** Entries accepted during a scan fit the trackers the scan leaves behind,
      which never decrease. */
  lemma {:induction false} CollectFits(w: Widths, store: Store, parent: string, children: seq<string>)
    requires w.ver > 0 && w.pub > 0
    ensures Covers(w, CollectWidths(w, store, parent, children))
    ensures forall e :: e in Collect(store, parent, children) ==>
      Fits(e, CollectWidths(w, store, parent, children)) && SizeWellFormed(e)
    decreases |children|
  {
    if children != [] {
      var n := |children| - 1;
      var init := children[..n];
      var before := CollectWidths(w, store, parent, init);
      CollectFits(w, store, parent, init);
      WidthsAfterProps(before, store, parent, children[n]);
    }
  }

  /** Text without a NUL reads back whole. */
  lemma CStrNoNul(s: string)
    requires '\0' !in s
    ensures CStr(s) == s
  {
  }

  // ---------------------------------------------------------------------
  // Scenarios

  /** A child opened directly yields what its own key admits. */
  lemma ExtractDirect(store: Store, parent: string, child: string, k: Key)
    requires Join(parent, child) in store && store[Join(parent, child)] == k
    ensures Extract(store, parent, child) == if Admitted(k) then Some(EntryOf(k)) else None
  {
  }

  /** A key holding only a display name is admitted, and its entry has
      empty version and publisher and size 0. */
  lemma NameOnlyEntry(name: string)
    requires '\0' !in name && DataSize(name) <= MAX_PATH
    ensures Admitted(Key(map["DisplayName" := Str(name)], []))
    ensures EntryOf(Key(map["DisplayName" := Str(name)], [])) == ProductEntry(name, "", "", 0)
  {
    CStrNoNul(name);
  }

  /** A child with only a display name yields one entry with empty version
      and publisher and size 0. */
  lemma ScenarioPlainEntry(store: Store, root: string, appkey: string)
    requires Join(root, appkey) in store && store[Join(root, appkey)].children == ["ToolA"]
    requires Join(Join(root, appkey), "ToolA") in store
    requires store[Join(Join(root, appkey), "ToolA")] == Key(map["DisplayName" := Str("Tool A")], [])
    ensures Scan(store, root, appkey) == [ProductEntry("Tool A", "", "", 0)]
  {
    var parent := Join(root, appkey);
    NameOnlyEntry("Tool A");
    ExtractDirect(store, parent, "ToolA", Key(map["DisplayName" := Str("Tool A")], []));
    CollectOne(store, parent, "ToolA");
  }

  /** A system component is dropped whatever else it holds. */
  lemma ScenarioSystemComponent(store: Store, root: string, appkey: string)
    requires Join(root, appkey) in store && store[Join(root, appkey)].children == ["ToolB"]
    requires Join(Join(root, appkey), "ToolB") in store
    requires store[Join(Join(root, appkey), "ToolB")] ==
      Key(map["DisplayName" := Str("Tool B"), "EstimatedSize" := Dword(2048), "SystemComponent" := Dword(1)], [])
    ensures Scan(store, root, appkey) == []
  {
    var parent := Join(root, appkey);
    var k := Key(map["DisplayName" := Str("Tool B"), "EstimatedSize" := Dword(2048), "SystemComponent" := Dword(1)], []);
    ExtractDirect(store, parent, "ToolB", k);
    CollectOne(store, parent, "ToolB");
  }

  /** A child that names a parent application is dropped; the parent stays. */
  lemma ScenarioParentDisplayName(store: Store, root: string, appkey: string)
    requires Join(root, appkey) in store && store[Join(root, appkey)].children == ["Suite", "Addon"]
    requires Join(Join(root, appkey), "Suite") in store
    requires store[Join(Join(root, appkey), "Suite")] == Key(map["DisplayName" := Str("Suite")], [])
    requires Join(Join(root, appkey), "Addon") in store
    requires store[Join(Join(root, appkey), "Addon")] ==
      Key(map["DisplayName" := Str("Addon"), "ParentDisplayName" := Str("Suite")], [])
    ensures Scan(store, root, appkey) == [ProductEntry("Suite", "", "", 0)]
  {
    var parent := Join(root, appkey);
    var addon := Key(map["DisplayName" := Str("Addon"), "ParentDisplayName" := Str("Suite")], []);
    NameOnlyEntry("Suite");
    ExtractDirect(store, parent, "Suite", Key(map["DisplayName" := Str("Suite")], []));
    ExtractDirect(store, parent, "Addon", addon);
    assert Extract(store, parent, "Addon") == None;
    CollectOne(store, parent, "Suite");
    CollectOne(store, parent, "Addon");
    CollectAppend(store, parent, ["Suite"], ["Addon"]);
    assert ["Suite"] + ["Addon"] == ["Suite", "Addon"];
  }
}
