/**
 Capture windows: chosen by the host script (compute_windows), printed as plugin text, and read
 back by the tracer's C parser (parse_windows).
 */
module WindowText {
  import opened Wrappers
  import opened Geometries

  const MAX_TRACE_WINDOWS: nat := 32
  const MAX_WINDOW_LABEL: nat := 24

  datatype WindowSpec = WindowSpec(start: int, count: nat, warmup: nat, measure: nat, name: string)

  // -------------------------------------------------------------------------------- tokens

  function SkipDelimiters(s: string, delimiters: set<char>): (t: string)
    ensures |t| <= |s|
    ensures t != [] ==> t[0] !in delimiters
  {
    if s != [] && s[0] in delimiters then SkipDelimiters(s[1..], delimiters) else s
  }

  function TokenLength(s: string, delimiters: set<char>): (k: nat)
    ensures k <= |s|
    ensures forall i :: 0 <= i < k ==> s[i] !in delimiters
    ensures k < |s| ==> s[k] in delimiters
  {
    if s == [] || s[0] in delimiters then 0 else 1 + TokenLength(s[1..], delimiters)
  }

  /** What repeated strtok_r calls yield: the maximal runs without delimiters, empty runs skipped. */
  function Tokens(s: string, delimiters: set<char>): seq<string>
    decreases |s|
  {
    var t := SkipDelimiters(s, delimiters);
    if t == [] then []
    else
      var k := TokenLength(t, delimiters);
      [t[..k]] + Tokens(t[k..], delimiters)
  }

  predicate FreeOf(s: string, delimiters: set<char>) {
    forall i :: 0 <= i < |s| ==> s[i] !in delimiters
  }

  function Join(parts: seq<string>, separator: char): string {
    if parts == [] then "" else if |parts| == 1 then parts[0] else parts[0] + [separator] + Join(parts[1..], separator)
  }

  lemma TokenThenRest(token: string, rest: string, delimiters: set<char>)
    requires token != "" && FreeOf(token, delimiters) && (rest == "" || rest[0] in delimiters)
    ensures Tokens(token + rest, delimiters) == [token] + Tokens(rest, delimiters)
  {
    var s := token + rest;
    assert s[0] == token[0];
    assert SkipDelimiters(s, delimiters) == s;
    TokenLengthIs(token, rest, delimiters);
    assert s[..|token|] == token && s[|token|..] == rest;
  }

  lemma {:induction false} TokenLengthIs(token: string, rest: string, delimiters: set<char>)
    requires FreeOf(token, delimiters) && (rest == "" || rest[0] in delimiters)
    ensures TokenLength(token + rest, delimiters) == |token|
  {
    if token == "" {
      assert token + rest == rest;
    } else {
      assert (token + rest)[1..] == token[1..] + rest;
      TokenLengthIs(token[1..], rest, delimiters);
    }
  }

  /** Splitting undoes joining when no part is empty or holds a delimiter. */
  lemma {:induction false} TokensOfJoin(parts: seq<string>, separator: char, delimiters: set<char>)
    requires separator in delimiters
    requires forall i :: 0 <= i < |parts| ==> parts[i] != "" && FreeOf(parts[i], delimiters)
    ensures Tokens(Join(parts, separator), delimiters) == parts
  {
    if |parts| == 1 {
      TokenThenRest(parts[0], "", delimiters);
      assert parts[0] + "" == parts[0];
    } else if |parts| > 1 {
      var rest := Join(parts[1..], separator);
      TokensOfJoin(parts[1..], separator, delimiters);
      TokenThenRest(parts[0], [separator] + rest, delimiters);
      assert parts[0] + [separator] + rest == parts[0] + ([separator] + rest);
      LeadingDelimiter(rest, separator, delimiters);
    }
  }

  lemma LeadingDelimiter(rest: string, separator: char, delimiters: set<char>)
    requires separator in delimiters
    ensures Tokens([separator] + rest, delimiters) == Tokens(rest, delimiters)
  {
    assert ([separator] + rest)[1..] == rest;
    assert SkipDelimiters([separator] + rest, delimiters) == SkipDelimiters(rest, delimiters);
  }

  // ------------------------------------------------------------------------------- numbers

  function DigitValue(c: char): (d: nat)
    ensures d <= 36
  {
    if '0' <= c <= '9' then c as nat - '0' as nat
    else if 'a' <= c <= 'z' then c as nat - 'a' as nat + 10
    else if 'A' <= c <= 'Z' then c as nat - 'A' as nat + 10
    else 36
  }

  predicate AllDigits(s: string, base: nat) {
    forall i :: 0 <= i < |s| ==> DigitValue(s[i]) < base
  }

  /** Value of a digit string, most significant digit first. */
  function Value(s: string, base: nat): nat {
    if s == "" then 0 else Value(s[..|s| - 1], base) * base + DigitValue(s[|s| - 1])
  }

  predicate IsSpace(c: char) {
    c == ' ' || '\t' <= c <= '\r'
  }

  function SkipSpace(s: string): string {
    if s != "" && IsSpace(s[0]) then SkipSpace(s[1..]) else s
  }

  /** The digits that strtoull reads with base 0 after the sign, and their base. */
  function Radix(s: string): (string, nat) {
    if |s| > 2 && s[0] == '0' && (s[1] == 'x' || s[1] == 'X') && DigitValue(s[2]) < 16 then (s[2..], 16)
    else if |s| > 0 && s[0] == '0' then (s, 8)
    else (s, 10)
  }

  /**
   parse_u64: a non-empty text that does not start with a minus sign and that strtoull reads to
   its end. A minus sign behind white space is still read, and wraps.
   */
  function ParseU64(text: string): (v: Option<Address>) {
    if text == "" || text[0] == '-' then None
    else
      var s := SkipSpace(text);
      var negative := s != "" && s[0] == '-';
      var (digits, base) := Radix(if s != "" && (s[0] == '-' || s[0] == '+') then s[1..] else s);
      if digits == "" || !AllDigits(digits, base) || Value(digits, base) >= ADDRESS_SPACE then None
      else if negative && Value(digits, base) > 0 then Some(ADDRESS_SPACE - Value(digits, base))
      else Some(Value(digits, base))
  }

  function Digit(d: nat): char
    requires d < 10
  {
    ('0' as nat + d) as char
  }

  /** A number as the host script prints it. */
  function Decimal(n: nat): (s: string)
    ensures s != ""
  {
    if n < 10 then [Digit(n)] else Decimal(n / 10) + [Digit(n % 10)]
  }

  lemma {:induction false} DecimalValue(n: nat)
    ensures AllDigits(Decimal(n), 10) && Value(Decimal(n), 10) == n
    ensures n > 0 ==> Decimal(n)[0] != '0'
    ensures forall i :: 0 <= i < |Decimal(n)| ==> '0' <= Decimal(n)[i] <= '9'
  {
    if n < 10 {
      assert [Digit(n)][..0] == "";
    } else {
      DecimalValue(n / 10);
      var s := Decimal(n / 10);
      assert (s + [Digit(n % 10)])[..|s|] == s;
    }
  }

  /** Reading a printed number gives it back. */
  lemma ParseOfDecimal(n: Address)
    ensures ParseU64(Decimal(n)) == Some(n)
  {
    DecimalValue(n);
    var s := Decimal(n);
    assert !IsSpace(s[0]);
    if n == 0 {
      assert s == "0" && s[..0] == "";
      assert Value("0", 8) == Value(s[..0], 8) * 8 + 0;
    }
  }

  // What the number reader accepts, told from the characters of the text.

  const SPACES: set<char> := {' ', '\t', '\n', '\U{0b}', '\U{0c}', '\r'}

  const LOWER_DIGITS: string := "0123456789abcdef"
  const UPPER_DIGITS: string := "0123456789ABCDEF"

  /** The sixteen digits, in either case. */
  lemma DigitsAre(c: char, d: nat)
    requires d < 16
    ensures DigitValue(c) == d <==> c == LOWER_DIGITS[d] || c == UPPER_DIGITS[d]
  {
  }

  predicate Spaces(s: string) {
    forall i :: 0 <= i < |s| ==> s[i] in SPACES
  }

  /** Digits behind 0x are hexadecimal, others are octal when the first is a zero, and decimal otherwise. */
  predicate Spells(digits: string, prefix: string, n: nat) {
    && digits != ""
    && (if prefix == "" then AllDigits(digits, if digits[0] == '0' then 8 else 10)
        else (prefix == "0x" || prefix == "0X") && AllDigits(digits, 16))
    && n == Value(digits, if prefix != "" then 16 else if digits[0] == '0' then 8 else 10)
  }

  function Wrapped(sign: string, n: Address): Address {
    if sign == "-" && n > 0 then ADDRESS_SPACE - n else n
  }

  /** A whole text: white space, a sign, a numeral; a minus sign wraps and may not come first. */
  predicate Writes(text: string, spaces: string, sign: string, prefix: string, digits: string, v: Address) {
    && text == spaces + (sign + (prefix + digits)) && text != "" && text[0] != '-'
    && Spaces(spaces) && (sign == "" || sign == "+" || sign == "-")
    && exists n: Address :: Spells(digits, prefix, n) && v == Wrapped(sign, n)
  }

  lemma {:induction false} SkipsSpaces(spaces: string, rest: string)
    requires Spaces(spaces) && (rest == "" || rest[0] !in SPACES)
    ensures SkipSpace(spaces + rest) == rest
  {
    if spaces == "" {
      assert spaces + rest == rest;
    } else {
      assert spaces[0] in SPACES;
      assert (spaces + rest)[1..] == spaces[1..] + rest;
      SkipsSpaces(spaces[1..], rest);
    }
  }

  lemma {:induction false} SkippedSpaces(s: string) returns (spaces: string)
    ensures Spaces(spaces) && s == spaces + SkipSpace(s)
    ensures SkipSpace(s) == "" || SkipSpace(s)[0] !in SPACES
  {
    if s != "" && IsSpace(s[0]) {
      var more := SkippedSpaces(s[1..]);
      spaces := [s[0]] + more;
      assert s == [s[0]] + s[1..];
    } else {
      spaces := "";
    }
  }

  lemma RadixOfNumeral(prefix: string, digits: string, n: nat)
    requires Spells(digits, prefix, n)
    ensures var (d, base) := Radix(prefix + digits); d == digits && AllDigits(d, base) && Value(d, base) == n
    ensures (prefix + digits)[0] !in SPACES + {'+', '-'}
  {
    hide Value;
    var s := prefix + digits;
    if prefix == "" {
      assert s == digits;
      assert |s| > 1 ==> DigitValue(s[1]) < 16;
    } else {
      assert s[2] == digits[0] && s[2..] == digits;
      assert DigitValue(digits[0]) < 16;
    }
  }

  lemma NumeralOfRadix(s: string) returns (prefix: string)
    ensures var (digits, base) := Radix(s);
            digits != "" && AllDigits(digits, base) ==>
              s == prefix + digits && Spells(digits, prefix, Value(digits, base))
  {
    hide Value;
    prefix := if |s| > 2 && s[0] == '0' && (s[1] == 'x' || s[1] == 'X') && DigitValue(s[2]) < 16 then s[..2] else "";
    if prefix != "" {
      assert s == prefix + s[2..];
    } else {
      assert s == prefix + s;
    }
  }

  /** The number reader accepts exactly the numerals of 64-bit numbers, and reads them. */
  lemma ParsesNumerals(text: string, v: Address)
    ensures ParseU64(text) == Some(v) <==>
              exists spaces, sign, prefix, digits :: Writes(text, spaces, sign, prefix, digits, v)
  {
    if spaces, sign, prefix, digits :| Writes(text, spaces, sign, prefix, digits, v) {
      WrittenIsRead(text, spaces, sign, prefix, digits, v);
    }
    if ParseU64(text) == Some(v) {
      ReadIsWritten(text, v);
    }
  }

  lemma WrittenIsRead(text: string, spaces: string, sign: string, prefix: string, digits: string, v: Address)
    requires Writes(text, spaces, sign, prefix, digits, v)
    ensures ParseU64(text) == Some(v)
  {
    hide Radix, SkipSpace, Value, AllDigits, Spells;
    var n: Address :| Spells(digits, prefix, n) && v == Wrapped(sign, n);
    RadixOfNumeral(prefix, digits, n);
    var rest := sign + (prefix + digits);
    SkipsSpaces(spaces, rest);
    assert rest == (if sign == "" then prefix + digits else [sign[0]] + (prefix + digits));
    assert sign != "" ==> rest[1..] == prefix + digits;
    DigitsNotEmpty(digits, prefix, n);
  }

  lemma DigitsNotEmpty(digits: string, prefix: string, n: nat)
    requires Spells(digits, prefix, n)
    ensures digits != ""
  {
  }

  lemma ReadIsWritten(text: string, v: Address)
    requires ParseU64(text) == Some(v)
    ensures exists spaces, sign, prefix, digits :: Writes(text, spaces, sign, prefix, digits, v)
  {
    hide Radix, SkipSpace, Value, AllDigits, Spells, Spaces;
    var spaces := SkippedSpaces(text);
    var s := SkipSpace(text);
    var sign := if s != "" && (s[0] == '-' || s[0] == '+') then s[..1] else "";
    var rest := if sign != "" then s[1..] else s;
    assert s == sign + rest;
    var prefix := NumeralOfRadix(rest);
    var (digits, base) := Radix(rest);
    var n := Value(digits, base);
    assert Spells(digits, prefix, n) && n < ADDRESS_SPACE;
    assert Writes(text, spaces, sign, prefix, digits, v);
  }

  // ------------------------------------------------------------------------------- windows

  predicate LabelChar(c: char) {
    'a' <= c <= 'z' || 'A' <= c <= 'Z' || '0' <= c <= '9' || c == '_' || c == '-'
  }

  predicate ValidLabel(name: string) {
    0 < |name| < MAX_WINDOW_LABEL && forall i :: 0 <= i < |name| ==> LabelChar(name[i])
  }

  predicate ValidWindow(w: WindowSpec) {
    && w.start >= 0 && w.count > 0
    && w.start + w.count < ADDRESS_SPACE
    && w.warmup + w.measure == w.count
    && ValidLabel(w.name)
  }

  /** The window tables the tracer can hold: in order, disjoint, and within its limits. */
  predicate ValidWindows(ws: seq<WindowSpec>) {
    && |ws| <= MAX_TRACE_WINDOWS
    && (forall i :: 0 <= i < |ws| ==> ValidWindow(ws[i]))
    && (forall i :: 0 < i < |ws| ==> ws[i - 1].start + ws[i - 1].count <= ws[i].start)
  }

  lemma {:induction false} WindowsAreOrdered(ws: seq<WindowSpec>, i: nat, j: nat)
    requires ValidWindows(ws) && i < j < |ws|
    ensures ws[i].start + ws[i].count <= ws[j].start
    decreases j
  {
    if i < j - 1 {
      WindowsAreOrdered(ws, i, j - 1);
    }
  }

  /** One entry of the text: five fields, four of them numbers. */
  function EntryOf(entry: string): (w: Option<WindowSpec>)
    ensures w.Some? ==> ValidWindow(w.value)
  {
    var f := Tokens(entry, {':'});
    if |f| != 5 then None
    else
      var start, count, warmup, measure := ParseU64(f[0]), ParseU64(f[1]), ParseU64(f[2]), ParseU64(f[3]);
      if start.None? || count.None? || warmup.None? || measure.None? then None
      else
        var w := WindowSpec(start.value, count.value, warmup.value, measure.value, f[4]);
        if ValidWindow(w) then Some(w) else None
  }

  /** Adding an entry to the window table. */
  function Appended(ws: seq<WindowSpec>, entry: string): (r: Option<seq<WindowSpec>>) {
    var w := EntryOf(entry);
    if |ws| >= MAX_TRACE_WINDOWS || w.None? then None
    else if ws != [] && w.value.start < ws[|ws| - 1].start + ws[|ws| - 1].count then None
    else Some(ws + [w.value])
  }

  function AllAppended(ws: seq<WindowSpec>, entries: seq<string>): (r: Option<seq<WindowSpec>>)
    decreases |entries|
  {
    if entries == [] then Some(ws)
    else
      var next := Appended(ws, entries[0]);
      if next.None? then None else AllAppended(next.value, entries[1..])
  }

  /** The window table after the text is read into an earlier table. */
  function ParsedWindows(ws: seq<WindowSpec>, text: string): (r: Option<seq<WindowSpec>>) {
    var all := AllAppended(ws, Tokens(text, {';', ','}));
    if all.None? || all.value == [] then None else all
  }

  /** One strtok_r call: the next token and what follows the delimiter behind it. */
  function NextToken(s: string, delimiters: set<char>): (r: Option<(string, string)>)
    ensures r.Some? ==> |r.value.1| < |s|
  {
    var t := SkipDelimiters(s, delimiters);
    if t == [] then None
    else
      var k := TokenLength(t, delimiters);
      Some((t[..k], if k < |t| then t[k + 1..] else ""))
  }

  lemma NextOfTokens(s: string, delimiters: set<char>)
    ensures var next := NextToken(s, delimiters);
            Tokens(s, delimiters) == if next.None? then [] else [next.value.0] + Tokens(next.value.1, delimiters)
  {
    var t := SkipDelimiters(s, delimiters);
    if t != [] {
      var k := TokenLength(t, delimiters);
      assert Tokens(s, delimiters) == [t[..k]] + Tokens(t[k..], delimiters);
      assert Tokens("", delimiters) == [];
      hide Tokens, SkipDelimiters, TokenLength;
      if k < |t| {
        assert t[k..] == [t[k]] + t[k + 1..];
        LeadingDelimiter(t[k + 1..], t[k], delimiters);
      } else {
        assert t[k..] == "";
      }
    }
  }

  lemma HeadMoves(fields: seq<string>, field: string, rest: seq<string>)
    ensures fields + ([field] + rest) == (fields + [field]) + rest
    ensures |fields + ([field] + rest)| > |fields|
  {
  }

  /** Splits one entry into its fields; none when there are more than five. */
  method Fields(entry: string) returns (r: Option<seq<string>>)
    ensures r == if |Tokens(entry, {':'})| <= 5 then Some(Tokens(entry, {':'})) else None
  {
    var fields: seq<string> := [];
    var next := NextToken(entry, {':'});
    ghost var rest := entry;
    hide NextToken, Tokens;
    while next.Some?
      invariant next == NextToken(rest, {':'}) && |fields| <= 5
      invariant Tokens(entry, {':'}) == fields + Tokens(rest, {':'})
      decreases |rest|
    {
      NextOfTokens(rest, {':'});
      HeadMoves(fields, next.value.0, Tokens(next.value.1, {':'}));
      if |fields| >= 5 { return None; }
      fields := fields + [next.value.0];
      rest := next.value.1;
      next := NextToken(next.value.1, {':'});
    }
    NextOfTokens(rest, {':'});
    assert fields + [] == fields;
    return Some(fields);
  }

  lemma AppendedFirst(ws: seq<WindowSpec>, entry: string, rest: seq<string>)
    ensures AllAppended(ws, [entry] + rest)
         == if Appended(ws, entry).None? then None else AllAppended(Appended(ws, entry).value, rest)
  {
    assert ([entry] + rest)[1..] == rest;
  }

  /** parse_windows: reads the entries one by one into the window table. */
  method ParseWindows(text: string, before: seq<WindowSpec>) returns (r: Option<seq<WindowSpec>>)
    ensures r == ParsedWindows(before, text)
  {
    var ws := before;
    var next := NextToken(text, {';', ','});
    ghost var rest := text;
    hide NextToken, Tokens, ParseU64;
    while next.Some?
      invariant next == NextToken(rest, {';', ','})
      invariant AllAppended(before, Tokens(text, {';', ','})) == AllAppended(ws, Tokens(rest, {';', ','}))
      decreases |rest|
    {
      NextOfTokens(rest, {';', ','});
      var entry := next.value.0;
      AppendedFirst(ws, entry, Tokens(next.value.1, {';', ','}));
      hide AllAppended;
      var fields := Fields(entry);
      if fields.None? { return None; }
      var f := fields.value;
      if |f| != 5 || |ws| >= MAX_TRACE_WINDOWS { return None; }
      var start, count, warmup, measure := ParseU64(f[0]), ParseU64(f[1]), ParseU64(f[2]), ParseU64(f[3]);
      if start.None? || count.None? || warmup.None? || measure.None? || !ValidLabel(f[4]) { return None; }
      if count.value == 0 || count.value > ADDRESS_SPACE - 1 - start.value { return None; }
      if measure.value > ADDRESS_SPACE - 1 - warmup.value { return None; }
      if warmup.value + measure.value != count.value { return None; }
      if |ws| > 0 && start.value < ws[|ws| - 1].start + ws[|ws| - 1].count { return None; }
      var w := WindowSpec(start.value, count.value, warmup.value, measure.value, f[4]);
      assert Appended(ws, entry) == Some(ws + [w]);
      ws := ws + [w];
      rest := next.value.1;
      next := NextToken(next.value.1, {';', ','});
    }
    NextOfTokens(rest, {';', ','});
    return if |ws| != 0 then Some(ws) else None;
  }

  /** Whatever the text, a table that was valid stays valid. */
  lemma {:induction false} AcceptedIsValid(ws: seq<WindowSpec>, entries: seq<string>)
    requires ValidWindows(ws)
    ensures AllAppended(ws, entries).Some? ==> ValidWindows(AllAppended(ws, entries).value)
    decreases |entries|
  {
    hide EntryOf;
    if entries != [] && Appended(ws, entries[0]).Some? {
      AcceptedIsValid(Appended(ws, entries[0]).value, entries[1..]);
    }
  }

  lemma ParsedWindowsAreValid(text: string)
    ensures var r := ParsedWindows([], text);
            r.Some? ==> r.value != [] && ValidWindows(r.value)
  {
    AcceptedIsValid([], Tokens(text, {';', ','}));
  }

  // -------------------------------------------------------------------------- printed text

  function PluginText(w: WindowSpec): string
    requires w.start >= 0
  {
    Join([Decimal(w.start), Decimal(w.count), Decimal(w.warmup), Decimal(w.measure), w.name], ':')
  }

  function EntryTexts(ws: seq<WindowSpec>): (t: seq<string>)
    requires forall i :: 0 <= i < |ws| ==> ws[i].start >= 0
    ensures |t| == |ws| && forall i :: 0 <= i < |ws| ==> t[i] == PluginText(ws[i])
  {
    seq(|ws|, i requires 0 <= i < |ws| => PluginText(ws[i]))
  }

  function WindowsText(ws: seq<WindowSpec>): string
    requires forall i :: 0 <= i < |ws| ==> ws[i].start >= 0
  {
    Join(EntryTexts(ws), ';')
  }

  /** A separator that occurs in no part occurs in the joined text only where parts meet. */
  lemma {:induction false} JoinFreeOf(parts: seq<string>, separator: char, delimiters: set<char>)
    requires separator !in delimiters
    requires forall i :: 0 <= i < |parts| ==> FreeOf(parts[i], delimiters)
    ensures FreeOf(Join(parts, separator), delimiters)
    ensures |parts| > 0 && parts[0] != "" ==> Join(parts, separator) != ""
  {
    if |parts| > 1 {
      JoinFreeOf(parts[1..], separator, delimiters);
    }
  }

  lemma FieldsOfWindow(w: WindowSpec, delimiters: set<char>)
    requires ValidWindow(w) && delimiters <= {':', ';', ','}
    ensures FreeOf(Decimal(w.start), delimiters) && FreeOf(Decimal(w.count), delimiters)
    ensures FreeOf(Decimal(w.warmup), delimiters) && FreeOf(Decimal(w.measure), delimiters)
    ensures FreeOf(w.name, delimiters) && w.name != ""
  {
    DecimalIsFree(w.start, delimiters);
    DecimalIsFree(w.count, delimiters);
    DecimalIsFree(w.warmup, delimiters);
    DecimalIsFree(w.measure, delimiters);
    LabelIsFree(w.name, delimiters);
    hide Decimal, FreeOf, ValidLabel;
  }

  lemma DecimalIsFree(n: nat, delimiters: set<char>)
    requires delimiters <= {':', ';', ','}
    ensures FreeOf(Decimal(n), delimiters)
  {
    DecimalValue(n);
    hide Decimal;
  }

  lemma LabelIsFree(name: string, delimiters: set<char>)
    requires ValidLabel(name) && delimiters <= {':', ';', ','}
    ensures FreeOf(name, delimiters) && name != ""
  {
  }

  lemma EntryOfPluginText(w: WindowSpec)
    requires ValidWindow(w)
    ensures EntryOf(PluginText(w)) == Some(w)
    ensures PluginText(w) != "" && FreeOf(PluginText(w), {';', ','})
  {
    hide Decimal, Tokens, ParseU64, FreeOf, ValidWindow, Join;
    Bounds(w);
    var parts := [Decimal(w.start), Decimal(w.count), Decimal(w.warmup), Decimal(w.measure), w.name];
    FieldsOfWindow(w, {':'});
    TokensOfJoin(parts, ':', {':'});
    FieldsOfWindow(w, {';', ','});
    JoinFreeOf(parts, ':', {';', ','});
    ParseOfDecimal(w.start);
    ParseOfDecimal(w.count);
    ParseOfDecimal(w.warmup);
    ParseOfDecimal(w.measure);
  }

  lemma Bounds(w: WindowSpec)
    requires ValidWindow(w)
    ensures 0 <= w.start < ADDRESS_SPACE && w.count < ADDRESS_SPACE
    ensures w.warmup < ADDRESS_SPACE && w.measure < ADDRESS_SPACE
  {
  }

  lemma {:induction false} EntriesReadBack(ws: seq<WindowSpec>, i: nat)
    requires ValidWindows(ws) && i <= |ws|
    ensures AllAppended(ws[..i], EntryTexts(ws)[i..]) == Some(ws)
    decreases |ws| - i
  {
    var t := EntryTexts(ws);
    hide Appended, PluginText, ValidWindows;
    if i == |ws| {
      assert ws[..i] == ws && t[i..] == [];
    } else {
      EntriesReadBack(ws, i + 1);
      AppendedBack(ws, i);
      hide AllAppended;
      AppendedFirst(ws[..i], t[i], t[i + 1..]);
      assert t[i] == PluginText(ws[i]) && t[i..] == [t[i]] + t[i + 1..];
    }
  }

  /** The text of window i is appended to the windows before it. */
  lemma AppendedBack(ws: seq<WindowSpec>, i: nat)
    requires ValidWindows(ws) && i < |ws|
    ensures Appended(ws[..i], PluginText(ws[i])) == Some(ws[..i + 1])
  {
    hide EntryOf, PluginText, ValidWindow;
    EntryOfPluginText(ws[i]);
    assert ws[..i] + [ws[i]] == ws[..i + 1];
  }

  /** Round trip: every window table is read back from its entries, with either separator between them. */
  lemma WindowsReadBack(ws: seq<WindowSpec>, separator: char)
    requires ValidWindows(ws) && ws != [] && (separator == ';' || separator == ',')
    ensures ParsedWindows([], Join(EntryTexts(ws), separator)) == Some(ws)
  {
    var t := EntryTexts(ws);
    forall i | 0 <= i < |ws|
      ensures t[i] != "" && FreeOf(t[i], {';', ','})
    {
      EntryOfPluginText(ws[i]);
    }
    TokensOfJoin(t, separator, {';', ','});
    EntriesReadBack(ws, 0);
    assert ws[..0] == [] && t[0..] == t;
  }

  // ------------------------------------------------------------------------ chosen windows

  const PERCENTILES: seq<nat> := [10, 30, 50, 70, 90]

  function Quantile(total: int, percentile: nat): WindowSpec {
    WindowSpec(total * percentile / 100 - 5_000, 10_000, 5_000, 5_000, "q" + Decimal(percentile))
  }

  const QUANTILE_NAMES: seq<string> := ["q10", "q30", "q50", "q70", "q90"]

  /** Ten thousand events around the percentile: it is reached exactly when the first half has warmed up. */
  predicate Centred(w: WindowSpec, total: int, percentile: nat) {
    && w.count == 10_000 && w.warmup == w.measure == 5_000
    && var reached := w.start + w.warmup;
       reached * 100 <= total * percentile < (reached + 1) * 100
  }

  lemma QuantileCentred(total: int, percentile: nat)
    requires percentile in PERCENTILES
    ensures Centred(Quantile(total, percentile), total, percentile)
    ensures Quantile(total, percentile).name == ['q', Digit(percentile / 10), Digit(percentile % 10)]
  {
    DecimalValue(percentile);
    assert Decimal(percentile) == [Digit(percentile / 10)] + [Digit(percentile % 10)];
  }

  /** The windows lie inside the region of interest, one after the other. */
  ghost predicate Inside(ws: seq<WindowSpec>, total: int) {
    forall i :: 0 <= i < |ws| ==> 0 <= ws[i].start && ws[i].start + ws[i].count <= total
  }

  lemma ProductsOrdered(total: int, a: int, b: int)
    requires 0 <= total && a <= b
    ensures total * a <= total * b
  {
  }

  lemma QuantilesFit(total: int, a: nat, b: nat)
    requires total >= 50_000 && 10 <= a <= 90
    ensures 0 <= Quantile(total, a).start && Quantile(total, a).start + 10_000 <= total
    ensures b >= a + 20 ==> Quantile(total, a).start + 10_000 <= Quantile(total, b).start
  {
    ProductsOrdered(total, 10, a);
    ProductsOrdered(total, a, 90);
    CentreFits(total, total * a);
    if b >= a + 20 {
      ProductsOrdered(total, a + 20, b);
      assert total * (a + 20) == total * a + total * 20;
      CentresApart(total, total * a, total * b);
    }
  }

  lemma CentreFits(total: int, product: int)
    requires total >= 50_000 && total * 10 <= product <= total * 90
    ensures 5_000 <= product / 100 && product / 100 + 5_000 <= total
  {
  }

  lemma CentresApart(total: int, product: int, next: int)
    requires total >= 50_000 && product + total * 20 <= next
    ensures product / 100 + 10_000 <= next / 100
  {
  }

  lemma QuantileLabel(percentile: nat)
    requires 10 <= percentile < 100
    ensures ValidLabel("q" + Decimal(percentile))
  {
    DecimalValue(percentile);
    assert Decimal(percentile) == [Digit(percentile / 10)] + [Digit(percentile % 10)];
  }

  /** compute_windows: no event is an error; every other total gets its windows. */
  method ComputeWindows(total: int) returns (r: Result<seq<WindowSpec>, string>)
    ensures r.Ok? <==> total > 0
    ensures 0 < total < 50_000 ==> r == Ok([WindowSpec(0, total, 0, total, "whole")])
    ensures total >= 50_000 ==>
              |r.value| == 5 && forall i :: 0 <= i < 5 ==>
                Centred(r.value[i], total, PERCENTILES[i]) && r.value[i].name == QUANTILE_NAMES[i]
    ensures r.Ok? ==> r.value != [] && Inside(r.value, total)
    ensures r.Ok? && total < ADDRESS_SPACE ==> ValidWindows(r.value)
  {
    if total <= 0 { return Err("ROI contains no supported memory events"); }
    if total < 50_000 { return Ok([WindowSpec(0, total, 0, total, "whole")]); }
    var ws: seq<WindowSpec> := [];
    for i := 0 to |PERCENTILES|
      invariant |ws| == i && forall k :: 0 <= k < i ==> ws[k] == Quantile(total, PERCENTILES[k])
    {
      var percentile := PERCENTILES[i];
      var center := total * percentile / 100;
      ws := ws + [WindowSpec(center - 5_000, 10_000, 5_000, 5_000, "q" + Decimal(percentile))];
    }
    forall i | 0 <= i < 5
      ensures 0 <= ws[i].start && ws[i].start + 10_000 <= total && ValidLabel(ws[i].name)
      ensures i < 4 ==> ws[i].start + 10_000 <= ws[i + 1].start
      ensures Centred(ws[i], total, PERCENTILES[i]) && ws[i].name == QUANTILE_NAMES[i]
    {
      QuantileCentred(total, PERCENTILES[i]);
      QuantilesFit(total, PERCENTILES[i], if i < 4 then PERCENTILES[i + 1] else 0);
      QuantileLabel(PERCENTILES[i]);
    }
    hide Quantile, ValidLabel, Decimal, Centred;
    for i := 1 to |ws|
    {
      if ws[i - 1].start + ws[i - 1].count > ws[i].start { return Err("computed quantile windows overlap"); }
    }
    if ws[0].start < 0 || ws[|ws| - 1].start + ws[|ws| - 1].count > total {
      return Err("computed quantile window exceeds the ROI");
    }
    return Ok(ws);
  }

  /** Host and tracer agree: the text of the chosen windows is read back as the chosen windows. */
  method CaptureWindows(total: int) returns (ws: seq<WindowSpec>, text: string)
    requires 0 < total < ADDRESS_SPACE
    ensures ValidWindows(ws) && ws != [] && Inside(ws, total)
    ensures text == WindowsText(ws) && ParsedWindows([], text) == Some(ws)
  {
    var r := ComputeWindows(total);
    ws := r.value;
    text := WindowsText(ws);
    WindowsReadBack(ws, ';');
  }
}
