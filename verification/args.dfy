/** The argument loop of `wmain`: `-s<N>` or `/s<N>` picks the sort mode,
    anything else ends the run before the registry is read. */
module Args {
  import opened Sorting

  const INT_MIN: int := -0x8000_0000
  const INT_MAX: int := 0x7FFF_FFFF

  type int32 = x: int | -0x8000_0000 <= x <= 0x7FFF_FFFF

  /** How the argument loop ends. */
  datatype ParseOutcome =
    | Proceed(mode: SortMode)   // every argument was a valid sort option
    | InvalidSort(n: int32)     // "Invalid sort option %i", then exit
    | Usage                     // usage text, then exit

  /** argv[i][j]: a character, or the terminating NUL past the end. */
  function CharAt(s: string, j: nat): char
  {
    if j < |s| then s[j] else '\0'
  }

  /** The ASCII white space characters: space, \t, \n, \v, \f, \r. Only
      these are modelled as what _wtoi skips. */
  predicate IsSpace(c: char)
  {
    c == ' ' || '\t' <= c <= '\r'
  }

  /** The ASCII decimal digits, the only digits modelled as read by _wtoi. */
  predicate IsDigit(c: char)
  {
    '0' <= c <= '9'
  }

  /** What remains after the leading white space: a suffix of `s` that does
      not start with white space, everything before it being white space. */
  function SkipSpaces(s: string): (t: string)
    ensures |t| <= |s| && t == s[|s| - |t|..]
    ensures forall i :: 0 <= i < |s| - |t| ==> IsSpace(s[i])
    ensures t != [] ==> !IsSpace(t[0])
  {
    if s != [] && IsSpace(s[0]) then SkipSpaces(s[1..]) else s
  }

  /** The longest prefix of decimal digits. */
  function DigitPrefix(s: string): (d: string)
    ensures |d| <= |s| && d == s[..|d|]
    ensures forall i :: 0 <= i < |d| ==> IsDigit(d[i])
    ensures |d| < |s| ==> !IsDigit(s[|d|])
  {
    if s != [] && IsDigit(s[0]) then [s[0]] + DigitPrefix(s[1..]) else []
  }

  /** The number a string of decimal digits denotes. */
  function DecimalValue(d: string): nat
    requires forall i :: 0 <= i < |d| ==> IsDigit(d[i])
  {
    if d == [] then 0
    else
      assert IsDigit(d[|d| - 1]);
      DecimalValue(d[..|d| - 1]) * 10 + (d[|d| - 1] as int - '0' as int)
  }

  /** Out-of-range results saturate at INT_MIN and INT_MAX. */
  function Saturate(v: int): int32
  {
    if v < INT_MIN then INT_MIN else if v > INT_MAX then INT_MAX else v
  }

  /** A non-zero value needs a digit at the head of the digit run. */
  lemma FirstDigit(u: string)
    ensures DecimalValue(DigitPrefix(u)) != 0 ==> u != [] && IsDigit(u[0])
  {
  }

  /** _wtoi: leading white space, an optional sign, then as many digits as
      there are; 0 when there are none, so a non-zero result needs a digit. */
  function Atoi(s: string): (n: int32)
    ensures n != 0 ==> exists i :: 0 <= i < |s| && IsDigit(s[i])
  {
    var t := SkipSpaces(s);
    var signed := t != [] && (t[0] == '-' || t[0] == '+');
    var u := if signed then t[1..] else t;
    var v: int := DecimalValue(DigitPrefix(u));
    FirstDigit(u);
    assert v != 0 ==> IsDigit(s[|s| - |u|]);
    var n := Saturate(if signed && t[0] == '-' then -v else v);
    assert n != 0 ==> v != 0;
    n
  }

  /** `arg` is a sort option: '/' or '-' followed by 's'. */
  predicate IsSortOption(arg: string)
  {
    (CharAt(arg, 0) == '/' || CharAt(arg, 0) == '-') && CharAt(arg, 1) == 's'
  }

  /** The argument loop over argv[1..], with `mode` the current value of the
      global `sort`. */
  function ParseArgs(args: seq<string>, mode: SortMode): (r: ParseOutcome)
    ensures r.InvalidSort? ==> !(0 < r.n < 4)
  {
    if args == [] then Proceed(mode)
    else if IsSortOption(args[0]) then
      var n := Atoi(args[0][2..]);
      if 0 < n < 4 then ParseArgs(args[1..], n) else InvalidSort(n)
    else Usage
  }

  // ---------------------------------------------------------------------

  /** A suffix with no digits after the optional white space and sign reads
      as 0, which is never a valid mode. */
  lemma AtoiNonNumeric(s: string)
    requires var t := SkipSpaces(s);
      var u := if t != [] && (t[0] == '-' || t[0] == '+') then t[1..] else t;
      u == [] || !IsDigit(u[0])
    ensures Atoi(s) == 0
  {
    var t := SkipSpaces(s);
    var u := if t != [] && (t[0] == '-' || t[0] == '+') then t[1..] else t;
    assert DigitPrefix(u) == [];
    assert DecimalValue([]) == 0;
  }

  /** A sort option with no digits after the optional white space and sign,
      following any number of valid sort options, ends the run reporting 0. */
  lemma NonNumericRejected(args: seq<string>, mode: SortMode, i: nat)
    requires i < |args| && forall j :: 0 <= j < i ==> ValidSortOption(args[j])
    requires IsSortOption(args[i])
    requires var t := SkipSpaces(args[i][2..]);
      var u := if t != [] && (t[0] == '-' || t[0] == '+') then t[1..] else t;
      u == [] || !IsDigit(u[0])
    ensures ParseArgs(args, mode) == InvalidSort(0)
  {
    AtoiNonNumeric(args[i][2..]);
    FirstBadArgument(args, mode, i);
  }

  /** A run made only of digits is its own digit prefix. */
  lemma DigitPrefixAll(d: string)
    requires forall i :: 0 <= i < |d| ==> IsDigit(d[i])
    ensures DigitPrefix(d) == d
  {
  }

  /** A value above INT_MAX saturates: `-s` followed by such a digit run,
      after any number of valid sort options, ends the run reporting
      INT_MAX. */
  lemma LargeValueSaturates(args: seq<string>, mode: SortMode, i: nat, d: string)
    requires i < |args| && forall j :: 0 <= j < i ==> ValidSortOption(args[j])
    requires args[i] == "-s" + d
    requires d != [] && forall k :: 0 <= k < |d| ==> IsDigit(d[k])
    requires DecimalValue(d) > INT_MAX
    ensures ParseArgs(args, mode) == InvalidSort(INT_MAX)
  {
    assert args[i][2..] == d;
    assert IsSortOption(args[i]);
    assert SkipSpaces(d) == d by {
      assert IsDigit(d[0]);
    }
    DigitPrefixAll(d);
    assert Atoi(d) == INT_MAX;
    FirstBadArgument(args, mode, i);
  }

  /** A single digit reads as its value. */
  lemma AtoiDigit(c: char)
    requires IsDigit(c)
    ensures Atoi([c]) == c as int - '0' as int
  {
    assert SkipSpaces([c]) == [c] by {
      assert [c][0] == c && !IsSpace(c);
    }
    assert DigitPrefix([c]) == [c] by {
      assert [c][1..] == [];
    }
    assert DecimalValue([c]) == c as int - '0' as int by {
      assert [c][..0] == [];
    }
  }

  /** Appending a valid sort option makes its value the mode if the run would
      have proceeded, and changes nothing otherwise: the last one wins. */
  lemma {:induction false} LastSortOptionWins(args: seq<string>, mode: SortMode, arg: string)
    requires IsSortOption(arg) && 0 < Atoi(arg[2..]) < 4
    ensures ParseArgs(args + [arg], mode) ==
      if ParseArgs(args, mode).Proceed? then Proceed(Atoi(arg[2..])) else ParseArgs(args, mode)
  {
    if args == [] {
      assert [] + [arg] == [arg];
      assert [arg][1..] == [];
    } else {
      assert (args + [arg])[0] == args[0];
      assert (args + [arg])[1..] == args[1..] + [arg];
      if IsSortOption(args[0]) && 0 < Atoi(args[0][2..]) < 4 {
        LastSortOptionWins(args[1..], Atoi(args[0][2..]), arg);
      }
    }
  }

  /** A sort option whose value is a valid mode. */
  predicate ValidSortOption(arg: string)
  {
    IsSortOption(arg) && 0 < Atoi(arg[2..]) < 4
  }

  /** The run proceeds exactly when every argument is a sort option with a
      value in 1..3. */
  lemma {:induction false} ProceedIff(args: seq<string>, mode: SortMode)
    ensures ParseArgs(args, mode).Proceed? <==> forall i :: 0 <= i < |args| ==> ValidSortOption(args[i])
  {
    if args != [] && ValidSortOption(args[0]) {
      var rest := args[1..];
      ProceedIff(rest, Atoi(args[0][2..]));
      assert forall i :: 0 < i < |args| ==> args[i] == rest[i - 1];
      if !ParseArgs(args, mode).Proceed? {
        var i :| 0 <= i < |rest| && !ValidSortOption(rest[i]);
        assert args[i + 1] == rest[i];
      }
    }
  }

  /** A run that proceeds does so in the mode of the last sort option, or in
      the initial mode when there are no arguments. */
  lemma {:induction false} ProceedMode(args: seq<string>, mode: SortMode)
    requires ParseArgs(args, mode).Proceed?
    ensures args != [] ==> ValidSortOption(args[|args| - 1])
    ensures ParseArgs(args, mode).mode == if args == [] then mode else Atoi(args[|args| - 1][2..])
  {
    if args != [] {
      var rest := args[1..];
      ProceedMode(rest, Atoi(args[0][2..]));
      if rest != [] {
        assert args[|args| - 1] == rest[|rest| - 1];
      }
    }
  }

  /** The first argument that is not a valid sort option decides how the
      run ends: with the value it reads as when it is a sort option, with the
      usage text otherwise, whatever follows it. */
  lemma {:induction false} FirstBadArgument(args: seq<string>, mode: SortMode, i: nat)
    requires i < |args| && forall j :: 0 <= j < i ==> ValidSortOption(args[j])
    requires !ValidSortOption(args[i])
    ensures ParseArgs(args, mode) == if IsSortOption(args[i]) then InvalidSort(Atoi(args[i][2..])) else Usage
  {
    if i > 0 {
      var rest := args[1..];
      assert ValidSortOption(args[0]);
      assert rest[i - 1] == args[i];
      assert forall j :: 0 <= j < i - 1 ==> ValidSortOption(rest[j]) by {
        forall j | 0 <= j < i - 1
          ensures ValidSortOption(rest[j])
        {
          assert rest[j] == args[j + 1];
        }
      }
      FirstBadArgument(rest, Atoi(args[0][2..]), i - 1);
    }
  }

  /** An argument that is not a sort option, following any number of valid
      sort options, ends the run with the usage text, whatever follows it. */
  lemma OtherArgumentIsUsage(args: seq<string>, mode: SortMode, i: nat)
    requires i < |args| && forall j :: 0 <= j < i ==> ValidSortOption(args[j])
    requires !IsSortOption(args[i])
    ensures ParseArgs(args, mode) == Usage
  {
    FirstBadArgument(args, mode, i);
  }

  /** `-s9` is rejected with the value 9. */
  lemma InvalidModeNine(mode: SortMode)
    ensures ParseArgs(["-s9"], mode) == InvalidSort(9)
  {
    var arg := "-s9";
    assert arg[2..] == "9";
    assert IsSortOption(arg);
    AtoiDigit('9');
    assert Atoi(arg[2..]) == 9;
    assert ParseArgs([arg], mode) == InvalidSort(Atoi(arg[2..]));
  }
}
