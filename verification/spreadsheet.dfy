/** Column letters and worksheet names of the spreadsheet export. */
module Spreadsheet {
  import opened Text
  import opened Arithmetic

  // ------------------------------------------------------------ column letters

  predicate IsLetter(c: char) { 'A' <= c <= 'Z' }

  function Letter(r: nat): (c: char)
    requires r < 26
    ensures IsLetter(c)
  {
    'A' + r as char
  }

  /** The letters of column `n`, most significant first; none for 0. */
  function Letters(n: nat): (s: string)
    ensures s == [] <==> n == 0
    ensures forall i :: 0 <= i < |s| ==> IsLetter(s[i])
  {
    if n == 0 then [] else Letters((n - 1) / 26) + [Letter((n - 1) % 26)]
  }

  /** The number a column's letters stand for, with digits A = 1 to Z = 26. */
  function Number(s: string): nat {
    if s == [] then 0
    else
      var c := s[|s| - 1];
      Number(s[..|s| - 1]) * 26 + (if IsLetter(c) then c as nat - 'A' as nat + 1 else 0)
  }

  method ColumnName(number: nat) returns (name: string)
    ensures name == Letters(number)
  {
    name := [];
    var rest := number;
    while rest != 0
      invariant Letters(number) == Letters(rest) + name
      decreases rest
    {
      var quotient, remainder := (rest - 1) / 26, (rest - 1) % 26;
      Assoc(Letters(quotient), [Letter(remainder)], name);
      name := [Letter(remainder)] + name;
      rest := quotient;
    }
  }

  /** Different columns have different letters: the letters determine the number. */
  lemma {:induction false} NumberOfLetters(n: nat)
    ensures Number(Letters(n)) == n
  {
    if n > 0 {
      var front := Letters((n - 1) / 26);
      NumberOfLetters((n - 1) / 26);
      assert Letters(n)[..|front|] == front;
    }
  }

  /** Every non-empty string of letters names a column. */
  lemma {:induction false} LettersOfNumber(s: string)
    requires forall i :: 0 <= i < |s| ==> IsLetter(s[i])
    ensures Letters(Number(s)) == s
  {
    if s != [] {
      var front, d := s[..|s| - 1], s[|s| - 1] as nat - 'A' as nat;
      LettersOfNumber(front);
      DivIs(Number(front) * 26 + d, 26, Number(front), d);
      assert Number(s) - 1 == Number(front) * 26 + d;
      assert s == front + [s[|s| - 1]];
    }
  }

  /** Dictionary order on strings of one length. */
  ghost predicate LexLess(a: string, b: string)
    requires |a| == |b|
    decreases |a|
  {
    a != [] &&
    var m, n := a[..|a| - 1], b[..|b| - 1];
    LexLess(m, n) || (m == n && a[|a| - 1] < b[|b| - 1])
  }

  /** Shorter first, then dictionary order. */
  ghost predicate ShortLexLess(a: string, b: string) {
    |a| < |b| || (|a| == |b| && LexLess(a, b))
  }

  /** Later columns have later letters. */
  lemma {:induction false} LettersIncrease(m: nat, n: nat)
    requires m < n
    ensures ShortLexLess(Letters(m), Letters(n))
  {
    if m > 0 {
      var a, b := (m - 1) / 26, (n - 1) / 26;
      assert Letters(m)[..|Letters(a)|] == Letters(a);
      assert Letters(n)[..|Letters(b)|] == Letters(b);
      if a < b {
        LettersIncrease(a, b);
      }
    }
  }

  /** The format's 16384 columns need at most three letters; the last is XFD. */
  lemma ThreeLetters(n: nat)
    ensures n <= 16384 ==> |Letters(n)| <= 3
    ensures Letters(16384) == "XFD"
  {
    LastColumn();
    LettersOfNumber("XFD");
    hide Letters, Number;
    if n < 16384 {
      LettersIncrease(n, 16384);
    }
  }

  lemma LastColumn()
    ensures Number("XFD") == 16384
  {
    assert "XFD"[..2] == "XF" && "XF"[..1] == "X" && "X"[..0] == "";
    assert Number("X") == 24;
    assert Number("XF") == 24 * 26 + 6;
  }

  // ----------------------------------------------------------------- decimals

  function Power10(k: nat): nat {
    if k == 0 then 1 else 10 * Power10(k - 1)
  }

  lemma {:induction false} DecimalLength(n: nat, k: nat)
    requires n < Power10(k) && k > 0
    ensures |Decimal(n)| <= k
  {
    if n >= 10 {
      DecimalLength(n / 10, k - 1);
    }
  }

  // ------------------------------------------------------------ case folding

  /** Case folding maps a string character by character; digits and the
      underscore fold to themselves. Nothing else about it is used. */
  ghost predicate Folding(fold: char -> string) {
    forall c: char :: c == '_' || '0' <= c <= '9' ==> fold(c) == [c]
  }

  function Fold(fold: char -> string, s: string): string {
    if s == [] then [] else Fold(fold, s[..|s| - 1]) + fold(s[|s| - 1])
  }

  lemma {:induction false} FoldAppend(fold: char -> string, a: string, b: string)
    ensures Fold(fold, a + b) == Fold(fold, a) + Fold(fold, b)
  {
    if b == [] {
      assert a + b == a;
    } else {
      var n := |b| - 1;
      FoldAppend(fold, a, b[..n]);
      assert (a + b)[..|a + b| - 1] == a + b[..n];
      Assoc(Fold(fold, a), Fold(fold, b[..n]), fold(b[n]));
    }
  }

  lemma {:induction false} FoldFixed(fold: char -> string, s: string)
    requires Folding(fold) && forall i :: 0 <= i < |s| ==> s[i] == '_' || '0' <= s[i] <= '9'
    ensures Fold(fold, s) == s
  {
    if s != [] {
      var front, last := s[..|s| - 1], s[|s| - 1];
      assert fold(last) == [last];
      forall i | 0 <= i < |front| ensures front[i] == '_' || '0' <= front[i] <= '9' {
        assert front[i] == s[i];
      }
      hide Folding;
      FoldFixed(fold, front);
      assert s == front + [last];
    }
  }

  // ------------------------------------------------------------- sheet names

  const MAX_NAME: int := 31

  /** base[:n], which counts from the end when n is negative. */
  function Take(base: string, n: int): (r: string)
    ensures r <= base
    ensures |r| == if n < 0 then (if |base| + n < 0 then 0 else |base| + n) else if n < |base| then n else |base|
  {
    if n >= |base| then base
    else if n >= 0 then base[..n]
    else if |base| + n >= 0 then base[..|base| + n]
    else []
  }

  predicate Invalid(c: char) {
    c in "\\/*?:[]"
  }

  function Cleaned(stem: string): (r: string)
    ensures |r| == |stem|
    ensures forall i :: 0 <= i < |r| ==> r[i] == if Invalid(stem[i]) then '_' else stem[i]
  {
    seq(|stem|, i requires 0 <= i < |stem| => if Invalid(stem[i]) then '_' else stem[i])
  }

  /** strip("'"). */
  function Unquoted(s: string): (r: string)
    ensures r == [] || (r[0] != '\'' && r[|r| - 1] != '\'')
    decreases |s|
  {
    if s == [] then []
    else if s[0] == '\'' then Unquoted(s[1..])
    else if s[|s| - 1] == '\'' then Unquoted(s[..|s| - 1])
    else s
  }

  /** The name a sheet would have if no other had it. */
  function Base(stem: string): (r: string)
    ensures r != []
  {
    var s := Unquoted(Cleaned(stem));
    if s == [] then "Sheet" else s
  }

  /** Only apostrophes were stripped, from both ends. */
  lemma {:induction false} UnquotedExactly(s: string) returns (i: nat, j: nat)
    ensures i <= j <= |s| && Unquoted(s) == s[i..j]
    ensures (forall k :: 0 <= k < i ==> s[k] == '\'') && (forall k :: j <= k < |s| ==> s[k] == '\'')
    decreases |s|
  {
    i, j := 0, |s|;
    if s != [] && s[0] == '\'' {
      i, j := UnquotedExactly(s[1..]);
      assert s[1..][i..j] == s[i + 1..j + 1];
      assert forall k :: 0 < k < |s| ==> s[k] == s[1..][k - 1];
      i, j := i + 1, j + 1;
    } else if s != [] && s[|s| - 1] == '\'' {
      var n := |s| - 1;
      i, j := UnquotedExactly(s[..n]);
      assert s[..n][i..j] == s[i..j];
      assert forall k :: 0 <= k < n ==> s[k] == s[..n][k];
    }
  }

  /** The stem with each forbidden character replaced, between its outer
      apostrophes; "Sheet" if nothing is left. */
  lemma BaseExactly(stem: string) returns (i: nat, j: nat)
    ensures i <= j <= |stem| && (i == j ==> Base(stem) == "Sheet")
    ensures forall k :: (0 <= k < i || j <= k < |stem|) ==> stem[k] == '\''
    ensures i < j ==>
      && stem[i] != '\'' && stem[j - 1] != '\'' && |Base(stem)| == j - i
      && forall k :: 0 <= k < j - i ==> Base(stem)[k] == if stem[i + k] in "\\/*?:[]" then '_' else stem[i + k]
  {
    i, j := UnquotedExactly(Cleaned(stem));
    if i < j {
      assert Base(stem) == Cleaned(stem)[i..j];
      assert Cleaned(stem)[i] == Base(stem)[0] && Cleaned(stem)[j - 1] == Base(stem)[j - i - 1];
    }
  }

  /** No name holds a character that is forbidden. */
  lemma BaseIsClean(stem: string, c: char)
    requires c in Base(stem)
    ensures c !in {'\\', '/', '*', '?', ':', '[', ']'}
  {
    var i, j := BaseExactly(stem);
    if i < j {
      var k :| 0 <= k < |Base(stem)| && Base(stem)[k] == c;
      assert c == '_' || (c == stem[i + k] && c !in "\\/*?:[]");
      ForbiddenIs(c);
    }
  }

  lemma ForbiddenIs(c: char)
    ensures c in "\\/*?:[]" <==> c in {'\\', '/', '*', '?', ':', '[', ']'}
  {
    var s := "\\/*?:[]";
    assert s[0] == '\\' && s[1] == '/' && s[2] == '*' && s[3] == '?' && s[4] == ':' && s[5] == '[' && s[6] == ']';
  }

  function Ending(suffix: nat): string {
    "_" + Decimal(suffix)
  }

  /** The name with a number, cut so that the whole fits. */
  function Numbered(base: string, suffix: nat): string {
    Take(base, MAX_NAME - |Ending(suffix)|) + Ending(suffix)
  }

  /** `name` is the first free one of base[:31], base_2, base_3, ... */
  ghost predicate FirstFree(fold: char -> string, base: string, used: set<string>, name: string) {
    && Fold(fold, name) !in used
    && (name == Take(base, MAX_NAME) ||
        (Fold(fold, Take(base, MAX_NAME)) in used && exists k :: NumberedFirst(fold, base, used, name, k)))
  }

  ghost predicate NumberedFirst(fold: char -> string, base: string, used: set<string>, name: string, k: nat) {
    k >= 2 && name == Numbered(base, k) && forall j :: 2 <= j < k ==> Fold(fold, Numbered(base, j)) in used
  }

  ghost function Folds(fold: char -> string, names: seq<string>): set<string> {
    set i | 0 <= i < |names| :: Fold(fold, names[i])
  }

  /** A numbered name is as much of the base as leaves room for an underscore
      and the number in 31 characters, and these. */
  lemma NumberedIs(base: string, k: nat)
    requires |Decimal(k)| <= 30
    ensures var room := 30 - |Decimal(k)|;
      Numbered(base, k) == (if |base| <= room then base else base[..room]) + "_" + Decimal(k)
  {
    hide Decimal;
    var room := 30 - |Decimal(k)|;
    var front := if |base| <= room then base else base[..room];
    assert Take(base, room) == front;
    Assoc(front, "_", Decimal(k));
  }

  lemma FreeIsClean(fold: char -> string, stem: string, used: set<string>, name: string, c: char)
    requires FirstFree(fold, Base(stem), used, name) && c in name
    ensures c !in {'\\', '/', '*', '?', ':', '[', ']'}
  {
    hide Fold, Base;
    if c in Base(stem) {
      BaseIsClean(stem, c);
    } else {
      assert c !in Take(Base(stem), MAX_NAME);
      var k :| NumberedFirst(fold, Base(stem), used, name, k);
      assert c in Ending(k);
      EndingFixed(k);
    }
  }

  /** What follows the last underscore tells the numbers apart. */
  lemma SplitsAtUnderscore(a: string, d: string, b: string, e: string)
    requires a + ['_'] + d == b + ['_'] + e && '_' !in d && '_' !in e
    ensures d == e
  {
    var s := a + ['_'] + d;
    assert s[|a|] == '_' && s[|b|] == '_';
    assert forall i :: |a| < i < |s| ==> s[i] == d[i - |a| - 1];
    assert forall i :: |b| < i < |s| ==> s[i] == e[i - |b| - 1];
    assert |a| == |b|;
    assert s[|a| + 1..] == d && s[|b| + 1..] == e;
  }

  lemma EndingFixed(k: nat)
    ensures forall i :: 0 <= i < |Ending(k)| ==> Ending(k)[i] == '_' || '0' <= Ending(k)[i] <= '9'
    ensures '_' !in Decimal(k)
  {
    forall i | 0 < i < |Ending(k)|
      ensures '0' <= Ending(k)[i] <= '9'
    {
      var c := Decimal(k)[i - 1];
      assert c in Decimal(k) && Ending(k)[i] == c;
    }
  }

  lemma FoldNumbered(fold: char -> string, base: string, k: nat)
    requires Folding(fold)
    ensures Fold(fold, Numbered(base, k)) == Fold(fold, Take(base, MAX_NAME - |Ending(k)|)) + ['_'] + Decimal(k)
    ensures '_' !in Decimal(k)
  {
    FoldAppend(fold, Take(base, MAX_NAME - |Ending(k)|), Ending(k));
    EndingFixed(k);
    FoldFixed(fold, Ending(k));
    Assoc(Fold(fold, Take(base, MAX_NAME - |Ending(k)|)), ['_'], Decimal(k));
  }

  /** Different numbers give different names, whatever else folds together. */
  lemma NumberedDiffer(fold: char -> string, base: string, j: nat, k: nat)
    requires Folding(fold) && Fold(fold, Numbered(base, j)) == Fold(fold, Numbered(base, k))
    ensures j == k
  {
    FoldNumbered(fold, base, j);
    FoldNumbered(fold, base, k);
    SplitsAtUnderscore(Fold(fold, Take(base, MAX_NAME - |Ending(j)|)), Decimal(j),
                       Fold(fold, Take(base, MAX_NAME - |Ending(k)|)), Decimal(k));
    ValueOfDecimal(j);
    ValueOfDecimal(k);
  }

  /** The folded names numbered 2 to n - 1. */
  ghost function Tried(fold: char -> string, base: string, n: nat): set<string> {
    if n <= 2 then {} else Tried(fold, base, n - 1) + {Fold(fold, Numbered(base, n - 1))}
  }

  lemma {:induction false} TriedIs(fold: char -> string, base: string, n: nat, x: string)
    requires x in Tried(fold, base, n)
    ensures exists j :: 2 <= j < n && x == Fold(fold, Numbered(base, j))
  {
    if n > 2 {
      if x in Tried(fold, base, n - 1) {
        TriedIs(fold, base, n - 1, x);
      } else {
        assert x == Fold(fold, Numbered(base, n - 1));
      }
    }
  }

  lemma NextIsNew(fold: char -> string, base: string, n: nat)
    requires Folding(fold) && n >= 2
    ensures Fold(fold, Numbered(base, n)) !in Tried(fold, base, n)
  {
    var x := Fold(fold, Numbered(base, n));
    if x in Tried(fold, base, n) {
      TriedIs(fold, base, n, x);
      var j :| 2 <= j < n && x == Fold(fold, Numbered(base, j));
      NumberedDiffer(fold, base, j, n);
    }
  }

  lemma {:induction false} TriedSize(fold: char -> string, base: string, n: nat)
    requires Folding(fold) && n >= 2
    ensures |Tried(fold, base, n)| == n - 2
  {
    hide Fold, Numbered, Folding;
    if n > 2 {
      TriedSize(fold, base, n - 1);
      NextIsNew(fold, base, n - 1);
    }
  }

  /** More names than are in use cannot all be in use. */
  lemma Pigeonhole(fold: char -> string, base: string, used: set<string>, n: nat)
    requires Folding(fold) && n >= 2 && Tried(fold, base, n) <= used
    ensures n <= |used| + 2
  {
    TriedSize(fold, base, n);
    SubsetSize(Tried(fold, base, n), used);
  }

  lemma {:induction false} SubsetSize(a: set<string>, b: set<string>)
    requires a <= b
    ensures |a| <= |b|
  {
    if a != {} {
      var x :| x in a;
      SubsetSize(a - {x}, b - {x});
    }
  }

  /** The first names tried, the unnumbered one and those up to n - 1, are in use. */
  ghost predicate AllUsed(fold: char -> string, base: string, used: set<string>, n: nat) {
    && Fold(fold, Take(base, MAX_NAME)) in used
    && Tried(fold, base, n) <= used
    && forall j :: 2 <= j < n ==> Fold(fold, Numbered(base, j)) in used
  }

  lemma AllUsedNext(fold: char -> string, base: string, used: set<string>, n: nat)
    requires n >= 2 && AllUsed(fold, base, used, n) && Fold(fold, Numbered(base, n)) in used
    ensures AllUsed(fold, base, used, n + 1)
  {
    hide Fold, Numbered, Take;
  }

  lemma AllUsedFew(fold: char -> string, base: string, used: set<string>, n: nat)
    requires Folding(fold) && n >= 2 && AllUsed(fold, base, used, n)
    ensures n <= |used| + 2
  {
    hide Fold, Numbered, Take;
    Pigeonhole(fold, base, used, n);
  }

  lemma NumberedFits(base: string, used: nat, k: nat)
    requires 2 <= k <= used + 2 && used < Power10(29)
    ensures |Numbered(base, k)| <= MAX_NAME
  {
    assert Power10(30) == 10 * Power10(29);
    DecimalLength(k, 30);
  }

  lemma FirstOne(fold: char -> string, base: string, used: set<string>, n: nat)
    requires n >= 2 && AllUsed(fold, base, used, n) && Fold(fold, Numbered(base, n)) !in used
    ensures FirstFree(fold, base, used, Numbered(base, n))
  {
    assert NumberedFirst(fold, base, used, Numbered(base, n), n);
  }

  /** The first free name for one sheet. */
  method PickName(base: string, used: set<string>, fold: char -> string) returns (name: string)
    requires Folding(fold)
    ensures FirstFree(fold, base, used, name)
    ensures |used| < Power10(29) ==> |name| <= MAX_NAME
  {
    hide Fold, Numbered, Tried, AllUsed, Folding, NumberedFirst, Power10;
    name := Take(base, MAX_NAME);
    var suffix := 2;
    while Fold(fold, name) in used
      invariant suffix >= 2
      invariant suffix == 2 ==> name == Take(base, MAX_NAME)
      invariant suffix > 2 ==>
        name == Numbered(base, suffix - 1) && AllUsed(fold, base, used, suffix - 1) && suffix - 1 <= |used| + 2
      decreases |used| + 3 - suffix
    {
      if suffix == 2 {
        NoneTried(fold, base, used);
      } else {
        AllUsedNext(fold, base, used, suffix - 1);
      }
      AllUsedFew(fold, base, used, suffix);
      name := Numbered(base, suffix);
      suffix := suffix + 1;
    }
    if suffix > 2 {
      FirstOne(fold, base, used, suffix - 1);
      if |used| < Power10(29) {
        NumberedFits(base, |used|, suffix - 1);
      }
    }
  }

  lemma NoneTried(fold: char -> string, base: string, used: set<string>)
    requires Fold(fold, Take(base, MAX_NAME)) in used
    ensures AllUsed(fold, base, used, 2)
  {
  }

  /** The names given so far: each the first free one at its turn, no two equal
      after folding. */
  ghost predicate Named(fold: char -> string, stems: seq<string>, names: seq<string>) {
    && |names| <= |stems|
    && (forall i :: 0 <= i < |names| ==> FirstFree(fold, Base(stems[i]), Folds(fold, names[..i]), names[i]))
    && (forall i, j :: 0 <= i < j < |names| ==> Fold(fold, names[i]) != Fold(fold, names[j]))
  }

  lemma NamedNext(fold: char -> string, stems: seq<string>, names: seq<string>, name: string)
    requires Named(fold, stems, names) && |names| < |stems|
    requires FirstFree(fold, Base(stems[|names|]), Folds(fold, names), name)
    ensures Named(fold, stems, names + [name])
  {
    assert Fold(fold, name) !in Folds(fold, names);
    hide FirstFree, Fold, Folds, Base;
    forall i | 0 <= i <= |names|
      ensures FirstFree(fold, Base(stems[i]), Folds(fold, (names + [name])[..i]), (names + [name])[i])
    {
      PrefixOfMore(names, name, i);
    }
    forall i | 0 <= i < |names|
      ensures Fold(fold, names[i]) != Fold(fold, name)
    {
      InFolds(fold, names, i);
    }
  }

  lemma PrefixOfMore(names: seq<string>, name: string, i: nat)
    requires i <= |names|
    ensures (names + [name])[..i] == names[..i]
    ensures i == |names| ==> names[..i] == names
  {
  }

  lemma InFolds(fold: char -> string, names: seq<string>, i: nat)
    requires i < |names|
    ensures Fold(fold, names[i]) in Folds(fold, names)
  {
    hide Fold;
  }

  /** One name per sheet, in order: each the first free one, so no two are
      equal after folding, and none is longer than 31 characters. */
  method SheetNames(stems: seq<string>, fold: char -> string) returns (names: seq<string>)
    requires Folding(fold)
    ensures |names| == |stems|
    ensures forall i :: 0 <= i < |names| ==> FirstFree(fold, Base(stems[i]), Folds(fold, names[..i]), names[i])
    ensures forall i, j :: 0 <= i < j < |names| ==> Fold(fold, names[i]) != Fold(fold, names[j])
    ensures |stems| <= Power10(29) ==> forall i :: 0 <= i < |names| ==> |names[i]| <= 31
    ensures forall i, c :: 0 <= i < |names| && c in names[i] ==> c !in {'\\', '/', '*', '?', ':', '[', ']'}
  {
    hide Fold, FirstFree, Folds, Folding, Base, Power10;
    names := [];
    var used: set<string> := {};
    NoFolds(fold);
    for i := 0 to |stems|
      invariant |names| == i && Named(fold, stems, names)
      invariant used == Folds(fold, names) && |used| <= i
      invariant |stems| <= Power10(29) ==> forall j :: 0 <= j < i ==> |names[j]| <= 31
      invariant forall j, c :: 0 <= j < i && c in names[j] ==> c !in {'\\', '/', '*', '?', ':', '[', ']'}
    {
      var name := PickName(Base(stems[i]), used, fold);
      forall c | c in name ensures c !in {'\\', '/', '*', '?', ':', '[', ']'} {
        FreeIsClean(fold, stems[i], used, name, c);
      }
      FoldsAppend(fold, names, name);
      NamedNext(fold, stems, names, name);
      used := used + {Fold(fold, name)};
      names := names + [name];
    }
  }

  lemma NoFolds(fold: char -> string)
    ensures Folds(fold, []) == {}
  {
  }

  lemma FoldsAppend(fold: char -> string, names: seq<string>, name: string)
    ensures Folds(fold, names + [name]) == Folds(fold, names) + {Fold(fold, name)}
  {
    hide Fold;
    var more := names + [name];
    assert more[|names|] == name;
    assert forall i :: 0 <= i < |names| ==> more[i] == names[i];
  }

  // ----------------------------------------------------------------- apostrophes

  predicate EndsQuoted(s: string) {
    s != [] && s[|s| - 1] == '\''
  }

  lemma BaseIsUnquoted(stem: string)
    ensures Base(stem) != [] && !EndsQuoted(Base(stem))
  {
  }

  lemma NumberedEndsInDigit(base: string, k: nat)
    ensures !EndsQuoted(Numbered(base, k))
  {
    var name := Numbered(base, k);
    var last := Decimal(k)[|Decimal(k)| - 1];
    assert last in Decimal(k);
    assert name[|name| - 1] == last;
  }

  /** Although apostrophes are stripped from both ends, a name can end in one:
      exactly if it is the unnumbered cut of a longer one whose 31st character
      is an apostrophe. */
  lemma QuotedExactly(stem: string, used: set<string>, fold: char -> string, name: string)
    requires FirstFree(fold, Base(stem), used, name)
    ensures EndsQuoted(name) <==>
      |Base(stem)| > MAX_NAME && Base(stem)[MAX_NAME - 1] == '\'' && Fold(fold, Take(Base(stem), MAX_NAME)) !in used
  {
    hide Fold, Numbered, Decimal, Unquoted, Cleaned;
    var base := Base(stem);
    BaseIsUnquoted(stem);
    if name == Take(base, MAX_NAME) {
      assert |base| <= MAX_NAME ==> name == base;
    } else {
      var k :| NumberedFirst(fold, base, used, name, k);
      NumberedEndsInDigit(base, k);
    }
  }

  /** A stem for which it does: 30 letters, an apostrophe and one more letter. */
  lemma QuotedName(fold: char -> string)
    ensures var stem := "aaaaaaaaaaaaaaaaaaaaaaaaaaaaaa'b";
      FirstFree(fold, Base(stem), {}, Base(stem)[..MAX_NAME]) && EndsQuoted(Base(stem)[..MAX_NAME])
  {
    var stem := "aaaaaaaaaaaaaaaaaaaaaaaaaaaaaa'b";
    assert |stem| == 32 && stem[30] == '\'';
    assert Cleaned(stem) == stem;
    assert Unquoted(stem) == stem;
  }
}
