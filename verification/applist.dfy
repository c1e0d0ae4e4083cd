/** The program itself: its globals (the width trackers maxname, maxver and
    maxpub, the sort mode and the product list) and the procedures that
    update them: listentry, listapps, the sort, and the argument loop and
    print loop of wmain. */
module AppList {
  import opened Store
  import opened Entry
  import opened Sorting
  import opened Args

  const HKEY_LOCAL_MACHINE: string := "HKEY_LOCAL_MACHINE"
  const HKEY_CURRENT_USER: string := "HKEY_CURRENT_USER"
  const UNINSTALL: string := "SOFTWARE\\Microsoft\\Windows\\CurrentVersion\\Uninstall"
  const UNINSTALL_WOW64: string := "SOFTWARE\\Wow6432Node\\Microsoft\\Windows\\CurrentVersion\\Uninstall"

  /** The number of entries below which the 64-bit total cannot wrap. */
  const MAX_EXACT_ENTRIES: nat := 0x40_0000

  /** Everything the three `listapps` calls of wmain append, in order. */
  function ScanAll(store: Store): seq<ProductEntry>
  {
    Scan(store, HKEY_LOCAL_MACHINE, UNINSTALL)
      + Scan(store, HKEY_LOCAL_MACHINE, UNINSTALL_WOW64)
      + Scan(store, HKEY_CURRENT_USER, UNINSTALL)
  }

  /** The trackers after the three `listapps` calls of wmain: they never
      decrease. */
  function ScanAllWidths(w: Widths, store: Store): (v: Widths)
    ensures Covers(w, v)
  {
    var w1 := ScanWidths(w, store, HKEY_LOCAL_MACHINE, UNINSTALL);
    var w2 := ScanWidths(w1, store, HKEY_LOCAL_MACHINE, UNINSTALL_WOW64);
    var w3 := ScanWidths(w2, store, HKEY_CURRENT_USER, UNINSTALL);
    ScanCovers(w, store, HKEY_LOCAL_MACHINE, UNINSTALL);
    ScanCovers(w1, store, HKEY_LOCAL_MACHINE, UNINSTALL_WOW64);
    ScanCovers(w2, store, HKEY_CURRENT_USER, UNINSTALL);
    w3
  }

  /** The trackers never decrease over one `listapps` call. */
  lemma ScanCovers(w: Widths, store: Store, root: string, appkey: string)
    ensures Covers(w, ScanWidths(w, store, root, appkey))
  {
    var h := Lookup(store, Join(root, appkey));
    if h.Some? {
      CollectCovers(w, store, h.value.path, h.value.key.children);
    }
  }

  /** The sum of the sizes of the entries. */
  function SizeSum(s: seq<ProductEntry>): nat
  {
    if s == [] then 0 else SizeSum(s[..|s| - 1]) + s[|s| - 1].size
  }

  lemma {:induction false} SizeSumAppend(a: seq<ProductEntry>, b: seq<ProductEntry>)
    ensures SizeSum(a + b) == SizeSum(a) + SizeSum(b)
    decreases |b|
  {
    if b == [] {
      assert a + b == a;
    } else {
      var b' := b[..|b| - 1];
      assert (a + b)[..|a + b| - 1] == a + b';
      assert (a + b)[|a + b| - 1] == b[|b| - 1];
      SizeSumAppend(a, b');
    }
  }

  /** Removing one entry takes its size off the total. */
  lemma {:induction false} SizeSumRemove(b: seq<ProductEntry>, k: nat)
    requires k < |b|
    ensures SizeSum(b) == SizeSum(b[..k] + b[k + 1..]) + b[k].size
    decreases |b|
  {
    var n := |b| - 1;
    var r := b[..k] + b[k + 1..];
    if k == n {
      assert r == b[..n];
    } else {
      var init := b[..n];
      SizeSumRemove(init, k);
      assert r[..|r| - 1] == init[..k] + init[k + 1..];
      assert r[|r| - 1] == b[n];
    }
  }

  /** Removing one occurrence of `x` from both sides keeps two sequences
      permutations of each other. */
  lemma RemoveOccurrence(a: seq<ProductEntry>, b: seq<ProductEntry>, k: nat)
    requires a != [] && multiset(a) == multiset(b)
    requires k < |b| && b[k] == a[|a| - 1]
    ensures multiset(a[..|a| - 1]) == multiset(b[..k] + b[k + 1..])
  {
    var n := |a| - 1;
    var x := a[n];
    assert a == a[..n] + [x];
    assert b == b[..k] + [x] + b[k + 1..];
    assert multiset(a[..n]) == multiset(a) - multiset{x};
    assert multiset(b[..k] + b[k + 1..]) == multiset(b) - multiset{x};
  }

  /** The total does not depend on the order of the entries, so sorting
      does not change it. */
  lemma {:induction false} SizeSumPermutation(a: seq<ProductEntry>, b: seq<ProductEntry>)
    requires multiset(a) == multiset(b)
    ensures SizeSum(a) == SizeSum(b)
    decreases |a|
  {
    if a == [] {
      assert |b| == |multiset(b)| == 0;
    } else {
      var n := |a| - 1;
      assert a[n] in multiset(b);
      var k :| 0 <= k < |b| && b[k] == a[n];
      RemoveOccurrence(a, b, k);
      SizeSumPermutation(a[..n], b[..k] + b[k + 1..]);
      SizeSumRemove(b, k);
    }
  }

  lemma ConcatAssoc<T>(p: seq<T>, a: seq<T>, b: seq<T>, c: seq<T>)
    ensures p + a + b + c == p + (a + b + c)
  {
  }

  /** Reducing the running total before each addition gives the same result. */
  lemma AddMod(a: nat, x: nat)
    ensures (a % TWO64 + x) % TWO64 == (a + x) % TWO64
  {
  }

  /** Every entry adds at most MAX_ENTRY_SIZE. */
  lemma {:induction false} SizeSumBound(s: seq<ProductEntry>)
    requires forall e :: e in s ==> SizeWellFormed(e)
    ensures SizeSum(s) <= |s| * MAX_ENTRY_SIZE
    decreases |s|
  {
    if s != [] {
      var n := |s| - 1;
      assert forall e :: e in s[..n] ==> e in s;
      assert s[n] in s;
      SizeSumBound(s[..n]);
    }
  }

  /** Below 2^22 entries the 64-bit total is the exact sum. */
  lemma TotalIsExact(s: seq<ProductEntry>)
    requires forall e :: e in s ==> SizeWellFormed(e)
    requires |s| <= MAX_EXACT_ENTRIES
    ensures SizeSum(s) % TWO64 == SizeSum(s)
  {
    SizeSumBound(s);
    assert |s| * MAX_ENTRY_SIZE <= MAX_EXACT_ENTRIES * MAX_ENTRY_SIZE;
  }

  class AppList {
    var maxname: nat
    var maxver: nat
    var maxpub: nat
    var sort: SortMode
    var products: seq<ProductEntry>

    ghost function Trackers(): Widths
      reads this
    {
      Widths(maxname, maxver, maxpub)
    }

    /** The trackers never fall below their initial 10, and every listed
        entry fits them, so the printed columns line up. */
    ghost predicate Valid()
      reads this
    {
      && Covers(InitialWidths, Trackers())
      && AllFit(products, Trackers())
    }

    /** The globals before wmain runs. */
    constructor ()
      ensures Valid()
      ensures Trackers() == InitialWidths && sort == BY_NAME && products == []
    {
      maxname, maxver, maxpub := 10, 10, 10;
      sort := BY_NAME;
      products := [];
    }

    /** listentry(hAppKey, regKey, entry): returns whether the child was
        accepted, with the updated entry; closes every key it opens. */
    method ListEntry(reg: Registry, app: Handle, regKey: string, entry: ProductEntry)
      returns (ok: bool, entry': ProductEntry)
      requires Valid()
      modifies this`maxname, this`maxver, this`maxpub, reg
      ensures Valid()
      ensures reg.openKeys == old(reg.openKeys)
      ensures ok == Extract(reg.store, app.path, regKey).Some?
      ensures entry' == if ok then Extract(reg.store, app.path, regKey).value else entry
      ensures ok ==> Fits(entry', Trackers()) && SizeWellFormed(entry')
      ensures Trackers() == WidthsAfter(old(Trackers()), reg.store, app.path, regKey)
      ensures Covers(old(Trackers()), Trackers())
    {
      WidthsAfterProps(Trackers(), reg.store, app.path, regKey);
      var found := OpenEntry(reg, app, regKey);
      if found.None? {
        return false, entry;
      }
      var hEntry := found.value;
      ghost var w := Trackers();
      ok, entry' := ReadEntry(hEntry, entry);
      AllFitCovers(products, w, Trackers());
      reg.Close(hEntry);
    }

    /** The two opens at the head of listentry: the child itself, or else
        its InstallProperties sub-key; the key found stays open. */
    static method OpenEntry(reg: Registry, app: Handle, regKey: string) returns (found: Option<Handle>)
      modifies reg
      ensures found == ResolveEntryKey(reg.store, app.path, regKey)
      ensures reg.openKeys == old(reg.openKeys) + (if found.Some? then multiset{found.value} else multiset{})
    {
      found := reg.Open(app.path, regKey);
      if found.None? {
        found := reg.Open(app.path, regKey + INSTALL_PROPERTIES);
      }
    }

    /** The part of listentry that reads the opened key: the three filters,
        then the optional values and the trackers. */
    method ReadEntry(hEntry: Handle, entry: ProductEntry) returns (ok: bool, entry': ProductEntry)
      modifies this`maxname, this`maxver, this`maxpub
      ensures ok == Admitted(hEntry.key)
      ensures entry' == if ok then EntryOf(hEntry.key) else entry
      ensures Trackers() ==
        if ok then
          Widths(
            Raise(old(maxname), QueryString(hEntry.key, "DisplayName")),
            Raise(old(maxver), QueryString(hEntry.key, "DisplayVersion")),
            Raise(old(maxpub), QueryString(hEntry.key, "Publisher")))
        else old(Trackers())
    {
      ok, entry' := false, entry;
      var flag := QueryDword(hEntry.key, "SystemComponent");
      var dwValue := if flag.Some? then flag.value else 0;
      if dwValue == 0 {
        if !HasValue(hEntry.key, "ParentDisplayName") {
          var name := QueryString(hEntry.key, "DisplayName");
          if name.Some? {
            entry' := Cleared;
            ok := true;
            entry' := entry'.(name := name.value.text);
            maxname := Max(maxname, name.value.size / WCHAR_SIZE);

            var version := QueryString(hEntry.key, "DisplayVersion");
            if version.Some? {
              entry' := entry'.(version := version.value.text);
              maxver := Max(maxver, version.value.size / WCHAR_SIZE);
            }
            var publisher := QueryString(hEntry.key, "Publisher");
            if publisher.Some? {
              entry' := entry'.(publisher := publisher.value.text);
              maxpub := Max(maxpub, publisher.value.size / WCHAR_SIZE);
            }
            var estimated := QueryDword(hEntry.key, "EstimatedSize");
            if estimated.Some? {
              entry' := entry'.(size := KbToBytes(estimated.value));
            }
          }
        }
      }
    }

    /** listapps(hRootKey, appkey): appends the accepted entries of every
        child of the key, in enumeration order, and returns 0. */
    method ListApps(reg: Registry, root: string, appkey: string) returns (count: uint32)
      requires Valid()
      modifies this`maxname, this`maxver, this`maxpub, this`products, reg
      ensures Valid()
      ensures count == 0
      ensures reg.openKeys == old(reg.openKeys)
      ensures products == old(products) + Scan(reg.store, root, appkey)
      ensures Trackers() == ScanWidths(old(Trackers()), reg.store, root, appkey)
      ensures Covers(old(Trackers()), Trackers())
    {
      count := 0;
      var found := reg.Open(root, appkey);
      if found.None? {
        return;
      }
      var hAppKey := found.value;
      var children := hAppKey.key.children;
      var entry := Cleared;
      var idx := 0;
      while true
        invariant idx <= |children|
        invariant Valid()
        invariant Covers(old(Trackers()), Trackers())
        invariant reg.openKeys == old(reg.openKeys) + multiset{hAppKey}
        invariant products == old(products) + Collect(reg.store, hAppKey.path, children[..idx])
        invariant Trackers() == CollectWidths(old(Trackers()), reg.store, hAppKey.path, children[..idx])
        decreases |children| - idx
      {
        if idx == |children| {
          break;  // ERROR_NO_MORE_ITEMS
        }
        var name := children[idx];
        CollectStep(old(Trackers()), reg.store, hAppKey.path, children, idx);
        idx := idx + 1;
        entry := ListChild(reg, hAppKey, name, entry);
      }
      assert children[..idx] == children;
      reg.Close(hAppKey);
    }

    /** One pass of the loop of listapps: listentry on the enumerated
        child, and push_back of the entry when it is accepted. */
    method ListChild(reg: Registry, app: Handle, name: string, entry: ProductEntry)
      returns (entry': ProductEntry)
      requires Valid()
      modifies this`maxname, this`maxver, this`maxpub, this`products, reg
      ensures Valid()
      ensures reg.openKeys == old(reg.openKeys)
      ensures products == old(products) +
        match Extract(reg.store, app.path, name) case Some(e) => [e] case None => []
      ensures Trackers() == WidthsAfter(old(Trackers()), reg.store, app.path, name)
      ensures Covers(old(Trackers()), Trackers())
    {
      var ok;
      ok, entry' := ListEntry(reg, app, name, entry);
      if ok {
        AllFitAppend(products, entry', Trackers());
        products := products + [entry'];
      }
    }

    /** The argument loop of wmain over argv[1..]. */
    method ParseArguments(args: seq<string>) returns (outcome: ParseOutcome)
      modifies this`sort
      ensures outcome == ParseArgs(args, old(sort))
      ensures outcome.Proceed? ==> sort == outcome.mode
    {
      var i := 0;
      while i < |args|
        invariant i <= |args|
        invariant ParseArgs(args[i..], sort) == ParseArgs(args, old(sort))
      {
        var arg := args[i];
        assert args[i..][1..] == args[i + 1..];
        if CharAt(arg, 0) == '/' || CharAt(arg, 0) == '-' {
          if CharAt(arg, 1) == 's' {
            var n := Atoi(arg[2..]);
            if 0 < n < 4 {
              sort := n;
            } else {
              return InvalidSort(n);
            }
          } else {
            return Usage;  // '?', 'h' and every other option
          }
        } else {
          return Usage;
        }
        i := i + 1;
      }
      return Proceed(sort);
    }

    /** std::sort(products.begin(), products.end(), SortFunction) */
    method SortProducts()
      requires Valid()
      modifies this`products
      ensures Valid()
      ensures Sorted(sort, products)
      ensures multiset(products) == multiset(old(products))
    {
      products := SortEntries(products, sort);
      forall e | e in products
        ensures e in old(products)
      {
        assert e in multiset(products);
      }
    }

    /** The print loop of wmain: the 64-bit total of the sizes and the
        32-bit count of the entries. */
    method Totals() returns (total: uint64, count: uint32)
      ensures total == SizeSum(products) % TWO64
      ensures count == |products| % TWO32
    {
      total, count := 0, 0;
      var i := 0;
      while i < |products|
        invariant i <= |products|
        invariant total == SizeSum(products[..i]) % TWO64
        invariant count == i % TWO32
      {
        assert products[..i + 1][..i] == products[..i];
        AddMod(SizeSum(products[..i]), products[i].size);
        total := (total + products[i].size) % TWO64;
        count := (count + 1) % TWO32;
        i := i + 1;
      }
      assert products[..i] == products;
    }

    /** The three listapps calls of wmain. */
    method ListAll(reg: Registry)
      requires Valid()
      modifies this`maxname, this`maxver, this`maxpub, this`products, reg
      ensures Valid()
      ensures reg.openKeys == old(reg.openKeys)
      ensures products == old(products) + ScanAll(reg.store)
      ensures Trackers() == ScanAllWidths(old(Trackers()), reg.store)
      ensures Covers(old(Trackers()), Trackers())
    {
      ghost var a := Scan(reg.store, HKEY_LOCAL_MACHINE, UNINSTALL);
      ghost var b := Scan(reg.store, HKEY_LOCAL_MACHINE, UNINSTALL_WOW64);
      ghost var c := Scan(reg.store, HKEY_CURRENT_USER, UNINSTALL);
      ghost var before := products;
      var _ := ListApps(reg, HKEY_LOCAL_MACHINE, UNINSTALL);
      assert products == before + a;
      var _ := ListApps(reg, HKEY_LOCAL_MACHINE, UNINSTALL_WOW64);
      assert products == before + a + b;
      var _ := ListApps(reg, HKEY_CURRENT_USER, UNINSTALL);
      assert products == before + a + b + c;
      ConcatAssoc(before, a, b, c);
    }

    /** The sort and the print loop of wmain, totalled over what was listed. */
    method Report() returns (total: uint64, count: uint32)
      requires Valid()
      modifies this`products
      ensures Valid()
      ensures multiset(products) == multiset(old(products))
      ensures Sorted(sort, products)
      ensures total == SizeSum(old(products)) % TWO64
      ensures count == |old(products)| % TWO32
    {
      ghost var listed := products;
      SortProducts();
      total, count := Totals();
      SizeSumPermutation(products, listed);
      assert |products| == |multiset(products)| == |listed|;
    }

    /** wmain with argv[1..]: parse the options, then (unless they end the
        run) list the three uninstall keys, sort, and total. */
    method Run(reg: Registry, args: seq<string>) returns (outcome: ParseOutcome, total: uint64, count: uint32)
      requires Valid()
      modifies this, reg
      ensures Valid()
      ensures outcome == ParseArgs(args, old(sort))
      ensures reg.openKeys == old(reg.openKeys)
      ensures !outcome.Proceed? ==>
        products == old(products) && Trackers() == old(Trackers()) && total == 0 && count == 0
      ensures outcome.Proceed? ==>
        && sort == outcome.mode
        && Trackers() == ScanAllWidths(old(Trackers()), reg.store)
        && Covers(old(Trackers()), Trackers())
        && multiset(products) == multiset(old(products) + ScanAll(reg.store))
        && Sorted(sort, products)
        && total == SizeSum(old(products) + ScanAll(reg.store)) % TWO64
        && count == |old(products) + ScanAll(reg.store)| % TWO32
    {
      total, count := 0, 0;
      outcome := ParseArguments(args);
      if !outcome.Proceed? {
        return;
      }
      ListAll(reg);
      total, count := Report();
    }
  }
}
