/** An abstract, read-only registry: keys addressed by their full path, each
    holding typed named values and an ordered list of child key names.  It
    stands in for RegOpenKeyEx, RegEnumKeyEx, RegQueryValueEx and RegCloseKey. */
module Store {

  const TWO32: int := 0x1_0000_0000
  const TWO64: int := 0x1_0000_0000_0000_0000

  /** DWORD */
  type uint32 = x: int | 0 <= x < 0x1_0000_0000
  /** ULONGLONG */
  type uint64 = x: int | 0 <= x < 0x1_0000_0000_0000_0000

  /** Size in bytes of the buffer handed to every string query. */
  const MAX_PATH: nat := 260
  /** sizeof(wchar_t) */
  const WCHAR_SIZE: nat := 2

  datatype Option<T> = None | Some(value: T)

  /** A REG_DWORD or a REG_SZ value. */
  datatype Value = Dword(d: uint32) | Str(s: string)

  datatype Key = Key(values: map<string, Value>, children: seq<string>)

  /** Every key of the store, by its full path ("HKEY_LOCAL_MACHINE\\SOFTWARE\\..."). */
  type Store = map<string, Key>

  /** An open key: the path it was opened under and what the key holds. */
  datatype Handle = Handle(path: string, key: Key)

  /** The path of the sub-key `sub` below `parent`. */
  function Join(parent: string, sub: string): string
  {
    parent + "\\" + sub
  }

  /** RegOpenKeyEx on a full path: a handle when the key exists. */
  function Lookup(store: Store, path: string): Option<Handle>
  {
    if path in store then Some(Handle(path, store[path])) else None
  }

  /** What a wide-character string holds up to its first NUL: the text a
      std::wstring gets when it is assigned from the query buffer. */
  function CStr(s: string): (t: string)
    ensures |t| <= |s| && t == s[..|t|]
    ensures '\0' !in t
    ensures |t| < |s| ==> s[|t|] == '\0'
  {
    if s == [] || s[0] == '\0' then [] else [s[0]] + CStr(s[1..])
  }

  /** The number of bytes a REG_SZ value occupies: its characters and the
      terminating NUL. */
  function DataSize(s: string): nat
  {
    WCHAR_SIZE * (|s| + 1)
  }

  /** A successful string query: the text and the byte count the query reports. */
  datatype StrData = StrData(text: string, size: nat)

  /** RegQueryValueEx of a string value into a buffer of MAX_PATH bytes: it
      fails when the value is missing, is not a string, or does not fit. */
  function QueryString(k: Key, name: string): (r: Option<StrData>)
    ensures r.Some? <==> name in k.values && k.values[name].Str? && DataSize(k.values[name].s) <= MAX_PATH
    ensures r.Some? ==> r.value.text == CStr(k.values[name].s)
    ensures r.Some? ==> |r.value.text| < r.value.size / WCHAR_SIZE <= MAX_PATH / WCHAR_SIZE
  {
    if name in k.values && k.values[name].Str? && DataSize(k.values[name].s) <= MAX_PATH then
      var s := k.values[name].s;
      Some(StrData(CStr(s), DataSize(s)))
    else
      None
  }

  /** RegQueryValueEx of a DWORD value into a four-byte buffer. */
  function QueryDword(k: Key, name: string): Option<uint32>
  {
    if name in k.values && k.values[name].Dword? then Some(k.values[name].d) else None
  }

  /** RegQueryValueEx with no data buffer: succeeds exactly when the value exists. */
  predicate HasValue(k: Key, name: string)
  {
    name in k.values
  }

  /** The registry as the program sees it: a fixed store and the handles the
      program holds open, so that every open can be shown to be matched by a
      close of the same handle. */
  class Registry {
    const store: Store
    ghost var openKeys: multiset<Handle>

    constructor (store: Store)
      ensures this.store == store && openKeys == multiset{}
    {
      this.store := store;
      openKeys := multiset{};
    }

    /** RegOpenKeyEx(parent, sub): a handle when the key exists. */
    method Open(parent: string, sub: string) returns (h: Option<Handle>)
      modifies this
      ensures h == Lookup(store, Join(parent, sub))
      ensures openKeys == old(openKeys) + (if h.Some? then multiset{h.value} else multiset{})
    {
      h := Lookup(store, Join(parent, sub));
      if h.Some? {
        openKeys := openKeys + multiset{h.value};
      }
    }

    /** RegCloseKey: releases a handle that is open. */
    method Close(h: Handle)
      requires h in openKeys
      modifies this
      ensures openKeys == old(openKeys) - multiset{h}
    {
      openKeys := openKeys - multiset{h};
    }
  }
}
