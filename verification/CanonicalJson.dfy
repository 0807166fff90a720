/** The canonical JSON text that approvals are hashed over: keys sorted, no blanks, ASCII only. */
module CanonicalJson {
  import opened Wrappers
  import opened Numerals
  import opened TextOrder

  /** Text, whole numbers and dictionaries in insertion order. */
  datatype Plain = PlainText(text: string) | PlainNumber(number: int) | PlainDict(items: seq<Member>)

  datatype Member = Member(key: string, value: Plain)

  function KeyOf(member: Member): string {
    member.key
  }

  // ---------------------------------------------------------------- writing

  function HexDigit(n: nat): char
    requires n < 16
  {
    if n < 10 then Digit(n) else ('a' as int + n - 10) as char
  }

  function Hex4(n: nat): string
    requires n < 0x1_0000
  {
    var byte := n / 0x10 / 0x10;
    [HexDigit(byte / 0x10), HexDigit(byte % 0x10), HexDigit(n / 0x10 % 0x10), HexDigit(n % 0x10)]
  }

  function Unit(n: nat): string
    requires n < 0x1_0000
  {
    "\\u" + Hex4(n)
  }

  /** Characters that stand for themselves: printable ASCII but for the quote and the backslash. */
  predicate IsPlain(c: char) {
    ' ' <= c <= '~' && c != '"' && c != '\\'
  }

  /** The two-character escapes. */
  function ShortEscape(c: char): Option<char> {
    if c == '"' then Some('"')
    else if c == '\\' then Some('\\')
    else if c == '\n' then Some('n')
    else if c == '\r' then Some('r')
    else if c == '\t' then Some('t')
    else if c == 12 as char then Some('f')
    else if c == 8 as char then Some('b')
    else None
  }

  /** One character, with a surrogate pair for those above U+FFFF. */
  function Escape(c: char): string {
    if ShortEscape(c).Some? then ['\\', ShortEscape(c).value]
    else if IsPlain(c) then [c]
    else if c as int < 0x1_0000 then Unit(c as int)
    else
      var n := c as int - 0x1_0000;
      Unit(0xD800 + n / 0x400) + Unit(0xDC00 + n % 0x400)
  }

  function EscapeAll(text: string): string {
    if text == "" then "" else Escape(text[0]) + EscapeAll(text[1..])
  }

  function Quoted(text: string): string {
    "\"" + EscapeAll(text) + "\""
  }

  function Numeral(n: int): string {
    if n < 0 then "-" + Decimal(-n) else Decimal(n)
  }

  /** A member together with its written value. */
  datatype Written = Written(key: string, text: string)

  function WrittenKey(written: Written): string {
    written.key
  }

  function Join(members: seq<Written>): string {
    if members == [] then ""
    else
      var first := Quoted(members[0].key) + ":" + members[0].text;
      if |members| == 1 then first else first + "," + Join(members[1..])
  }

  function Dumps(v: Plain): string
    decreases v
  {
    match v
    case PlainText(text) => Quoted(text)
    case PlainNumber(n) => Numeral(n)
    case PlainDict(items) => "{" + Join(SortBy(WrittenKey, WriteAll(items))) + "}"
  }

  function WriteAll(items: seq<Member>): (written: seq<Written>)
    ensures |written| == |items|
    ensures forall i | 0 <= i < |items| :: written[i] == Written(items[i].key, Dumps(items[i].value))
    decreases items
  {
    if items == [] then [] else [Written(items[0].key, Dumps(items[0].value))] + WriteAll(items[1..])
  }

  // ---------------------------------------------------------------- what is written, without key order

  datatype Tree = TextTree(text: string) | NumberTree(number: int) | DictTree(members: map<string, Tree>)

  function TreeOf(v: Plain): Tree
    decreases v
  {
    match v
    case PlainText(text) => TextTree(text)
    case PlainNumber(n) => NumberTree(n)
    case PlainDict(items) => DictTree(TreesOf(items))
  }

  function TreesOf(items: seq<Member>): map<string, Tree>
    decreases items
  {
    if items == [] then map[] else map[items[0].key := TreeOf(items[0].value)] + TreesOf(items[1..])
  }

  /** No key occurs twice in a dictionary, at any depth. */
  ghost predicate WellFormed(v: Plain)
    decreases v
  {
    v.PlainDict? ==> KeysDistinct(v.items) && forall i | 0 <= i < |v.items| :: WellFormed(v.items[i].value)
  }

  ghost predicate KeysDistinct(items: seq<Member>) {
    forall i, j | 0 <= i < j < |items| :: items[i].key != items[j].key
  }

  // ---------------------------------------------------------------- reading

  function HexValue(c: char): Option<nat> {
    if IsDigit(c) then Some(c as int - '0' as int)
    else if 'a' <= c <= 'f' then Some(c as int - 'a' as int + 10)
    else None
  }

  function ReadHex4(text: string): Option<nat> {
    if |text| < 4 then None
    else
      var a, b, c, d := HexValue(text[0]), HexValue(text[1]), HexValue(text[2]), HexValue(text[3]);
      if a.None? || b.None? || c.None? || d.None? then None
      else Some(a.value * 0x1000 + b.value * 0x100 + c.value * 0x10 + d.value)
  }

  /** A `\u` escape and what follows it. */
  function ReadUnit(text: string): Option<(nat, string)> {
    if |text| < 6 || text[0] != '\\' || text[1] != 'u' then None
    else
      var n := ReadHex4(text[2..6]);
      if n.None? then None else Some((n.value, text[6..]))
  }

  function ShortMeaning(c: char): Option<char> {
    match c
    case '"' => Some('"')
    case '\\' => Some('\\')
    case 'n' => Some('\n')
    case 'r' => Some('\r')
    case 't' => Some('\t')
    case 'f' => Some(12 as char)
    case 'b' => Some(8 as char)
    case _ => None
  }

  /** One character, as section 7 of RFC 8259 reads it. */
  function ReadChar(text: string): (read: Option<(char, string)>)
    requires text != ""
    ensures read.Some? ==> |read.value.1| < |text|
  {
    if text[0] != '\\' then Some((text[0], text[1..]))
    else if |text| == 1 then None
    else if text[1] != 'u' then
      var meaning := ShortMeaning(text[1]);
      if meaning.None? then None else Some((meaning.value, text[2..]))
    else
      var first := ReadUnit(text);
      if first.None? then None
      else if !(0xD800 <= first.value.0 < 0xE000) then
        if first.value.0 < 0x1_0000 then Some((first.value.0 as char, first.value.1)) else None
      else
        var second := ReadUnit(first.value.1);
        if second.None? || first.value.0 >= 0xDC00 || !(0xDC00 <= second.value.0 < 0xE000) then None
        else Some(((0x1_0000 + (first.value.0 - 0xD800) * 0x400 + (second.value.0 - 0xDC00)) as char, second.value.1))
  }

  /** The rest of a quoted text, and what follows its closing quote. */
  function ReadText(text: string): (read: Option<(string, string)>)
    ensures read.Some? ==> |read.value.1| < |text|
    decreases |text|
  {
    if text == "" then None
    else if text[0] == '"' then Some(("", text[1..]))
    else
      var first := ReadChar(text);
      if first.None? then None
      else
        var rest := ReadText(first.value.1);
        if rest.None? then None else Some(([first.value.0] + rest.value.0, rest.value.1))
  }

  function ReadNumber(text: string): (read: Option<(int, string)>)
    ensures read.Some? ==> |read.value.1| < |text|
  {
    if StartsWithDigit(text) then
      ReadDigitsShortens(text, 0);
      var read := ReadDigits(text, 0);
      Some((read.0 as int, read.1))
    else if text != "" && text[0] == '-' && StartsWithDigit(text[1..]) then
      ReadDigitsShortens(text[1..], 0);
      var read := ReadDigits(text[1..], 0);
      Some((-(read.0 as int), read.1))
    else None
  }

  lemma {:induction false} ReadDigitsShortens(text: string, before: nat)
    ensures |ReadDigits(text, before).1| <= |text|
    ensures StartsWithDigit(text) ==> |ReadDigits(text, before).1| < |text|
    decreases |text|
  {
    if StartsWithDigit(text) {
      ReadDigitsShortens(text[1..], before * 10 + (text[0] as int - '0' as int));
    }
  }

  function ReadValue(text: string): (read: Option<(Tree, string)>)
    ensures read.Some? ==> |read.value.1| < |text|
    decreases |text|, 0
  {
    if text == "" then None
    else if text[0] == '"' then
      match ReadText(text[1..])
      case None => None
      case Some((s, rest)) => Some((TextTree(s), rest))
    else if text[0] == '{' then
      if |text| > 1 && text[1] == '}' then Some((DictTree(map[]), text[2..]))
      else
        match ReadMembers(text[1..])
        case None => None
        case Some((members, rest)) => Some((DictTree(members), rest))
    else
      match ReadNumber(text)
      case None => None
      case Some((n, rest)) => Some((NumberTree(n), rest))
  }

  /** The members of a dictionary, and what follows its closing brace. */
  function ReadMembers(text: string): (read: Option<(map<string, Tree>, string)>)
    ensures read.Some? ==> |read.value.1| < |text|
    decreases |text|, 1
  {
    if text == "" || text[0] != '"' then None
    else
      match ReadText(text[1..])
      case None => None
      case Some((key, afterKey)) =>
        if afterKey == "" || afterKey[0] != ':' then None
        else
          match ReadValue(afterKey[1..])
          case None => None
          case Some((value, afterValue)) =>
            if afterValue == "" then None
            else if afterValue[0] == '}' then Some((map[key := value], afterValue[1..]))
            else if afterValue[0] != ',' then None
            else
              match ReadMembers(afterValue[1..])
              case None => None
              case Some((members, rest)) => Some((map[key := value] + members, rest))
  }

  // ---------------------------------------------------------------- reading inverts writing

  lemma ReadInvertsUnit(n: nat, rest: string)
    requires n < 0x1_0000
    ensures ReadUnit(Unit(n) + rest) == Some((n, rest))
  {
  }

  lemma ReadInvertsShort(c: char, rest: string)
    requires ShortEscape(c).Some? || IsPlain(c)
    ensures Escape(c) != "" && Escape(c)[0] != '"' && ReadChar(Escape(c) + rest) == Some((c, rest))
  {
  }

  lemma Regroup(a: string, b: string, c: string)
    ensures a + b + c == a + (b + c)
  {
  }

  lemma ReadPair(high: nat, low: nat, rest: string)
    requires 0xD800 <= high < 0xDC00 && 0xDC00 <= low < 0xE000
    ensures ReadChar(Unit(high) + (Unit(low) + rest))
      == Some(((0x1_0000 + (high - 0xD800) * 0x400 + (low - 0xDC00)) as char, rest))
  {
    ReadInvertsUnit(high, Unit(low) + rest);
    ReadInvertsUnit(low, rest);
  }

  lemma ReadInvertsPair(c: char, rest: string)
    requires c as int >= 0x1_0000
    ensures Escape(c) != "" && Escape(c)[0] != '"' && ReadChar(Escape(c) + rest) == Some((c, rest))
  {
    var n := c as int - 0x1_0000;
    var high, low := 0xD800 + n / 0x400, 0xDC00 + n % 0x400;
    assert Escape(c) == Unit(high) + Unit(low);
    Regroup(Unit(high), Unit(low), rest);
    ReadPair(high, low, rest);
    assert 0x1_0000 + (high - 0xD800) * 0x400 + (low - 0xDC00) == c as int;
  }

  lemma ReadInvertsEscape(c: char, rest: string)
    ensures Escape(c) != "" && Escape(c)[0] != '"' && ReadChar(Escape(c) + rest) == Some((c, rest))
  {
    if ShortEscape(c).Some? || IsPlain(c) {
      ReadInvertsShort(c, rest);
    } else if c as int < 0x1_0000 {
      ReadInvertsUnit(c as int, rest);
    } else {
      ReadInvertsPair(c, rest);
    }
  }

  lemma {:induction false} ReadInvertsEscapeAll(text: string, rest: string)
    ensures ReadText(EscapeAll(text) + "\"" + rest) == Some((text, rest))
  {
    if text == "" {
      assert (EscapeAll(text) + "\"" + rest)[1..] == rest;
    } else {
      var tail := EscapeAll(text[1..]) + "\"" + rest;
      assert EscapeAll(text) + "\"" + rest == Escape(text[0]) + tail;
      ReadInvertsEscape(text[0], tail);
      ReadInvertsEscapeAll(text[1..], rest);
      assert text == [text[0]] + text[1..];
    }
  }

  lemma ReadInvertsNumeral(n: int, rest: string)
    requires !StartsWithDigit(rest)
    ensures ReadValue(Numeral(n) + rest) == Some((NumberTree(n), rest))
  {
    var size: nat := if n < 0 then -n else n;
    ReadInvertsDecimal(size, rest);
    DecimalIsDigits(size);
    assert Decimal(size)[0] in Decimal(size);
    if n < 0 {
      assert (Numeral(n) + rest)[1..] == Decimal(size) + rest;
    }
  }

  /** The text is read as the tree, whatever follows it that cannot belong to a number. */
  ghost predicate ReadsAs(text: string, tree: Tree) {
    && text != "" && text[0] != '}'
    && forall rest: string :: !StartsWithDigit(rest) ==> ReadValue(text + rest) == Some((tree, rest))
  }

  lemma {:induction false} ReadInvertsDumps(v: Plain)
    requires WellFormed(v)
    ensures ReadsAs(Dumps(v), TreeOf(v))
    decreases v
  {
    match v {
      case PlainText(text) =>
        forall rest: string ensures ReadValue(Dumps(v) + rest) == Some((TreeOf(v), rest)) {
          assert (Dumps(v) + rest)[1..] == EscapeAll(text) + "\"" + rest;
          ReadInvertsEscapeAll(text, rest);
        }
      case PlainNumber(n) =>
        forall rest: string | !StartsWithDigit(rest) ensures ReadValue(Dumps(v) + rest) == Some((TreeOf(v), rest)) {
          ReadInvertsNumeral(n, rest);
        }
        NumeralStart(n);
      case PlainDict(items) =>
        forall i | 0 <= i < |items| ensures ReadsAs(Dumps(items[i].value), TreeOf(items[i].value)) {
          ReadInvertsDumps(items[i].value);
        }
        DictReadsAs(items);
    }
  }

  lemma NumeralStart(n: int)
    ensures Numeral(n) != "" && Numeral(n)[0] != '}'
  {
    var size: nat := if n < 0 then -n else n;
    DecimalIsDigits(size);
    assert Decimal(size)[0] in Decimal(size);
  }

  ghost predicate AllRead(items: seq<Member>) {
    forall i | 0 <= i < |items| :: ReadsAs(Dumps(items[i].value), TreeOf(items[i].value))
  }

  /** Members sorted first and written then are the same text as members written first. */
  lemma {:induction false} InsertWritten(item: Member, sorted: seq<Member>)
    ensures WriteAll(Insert(KeyOf, item, sorted))
      == Insert(WrittenKey, Written(item.key, Dumps(item.value)), WriteAll(sorted))
  {
    if sorted != [] && !AtMost(item.key, sorted[0].key) {
      InsertWritten(item, sorted[1..]);
    }
  }

  lemma {:induction false} SortWritten(items: seq<Member>)
    ensures WriteAll(SortBy(KeyOf, items)) == SortBy(WrittenKey, WriteAll(items))
  {
    if items == [] {
    } else {
      SortWritten(items[1..]);
      InsertWritten(items[0], SortBy(KeyOf, items[1..]));
    }
  }

  /** What reading one member leaves to be read. */
  function AfterMember(key: string, tree: Tree, follows: string): Option<(map<string, Tree>, string)>
    requires follows != ""
  {
    if follows[0] == '}' then Some((map[key := tree], follows[1..]))
    else if follows[0] != ',' then None
    else
      match ReadMembers(follows[1..])
      case None => None
      case Some((members, rest)) => Some((map[key := tree] + members, rest))
  }

  lemma ReadInvertsKey(key: string, after: string)
    ensures Quoted(key) + after != "" && (Quoted(key) + after)[0] == '"'
    ensures ReadText((Quoted(key) + after)[1..]) == Some((key, after))
  {
    assert (Quoted(key) + after)[1..] == EscapeAll(key) + "\"" + after;
    ReadInvertsEscapeAll(key, after);
  }

  lemma ReadInvertsMember(key: string, text: string, tree: Tree, follows: string)
    requires ReadsAs(text, tree) && follows != "" && !StartsWithDigit(follows)
    ensures ReadMembers(Quoted(key) + ":" + text + follows) == AfterMember(key, tree, follows)
  {
    var afterKey := ":" + (text + follows);
    Regroup(Quoted(key), ":", text);
    Regroup(Quoted(key), ":" + text, follows);
    Regroup(":", text, follows);
    ReadInvertsKey(key, afterKey);
    assert afterKey[1..] == text + follows;
    assert ReadValue(text + follows) == Some((tree, follows));
  }

  lemma JoinSplits(items: seq<Member>, rest: string) returns (follows: string)
    requires items != []
    ensures Join(WriteAll(items)) + "}" + rest == Quoted(items[0].key) + ":" + Dumps(items[0].value) + follows
    ensures follows != "" && !StartsWithDigit(follows)
    ensures |items| == 1 ==> follows == "}" + rest
    ensures |items| > 1 ==> follows[0] == ',' && follows[1..] == Join(WriteAll(items[1..])) + "}" + rest
  {
    var written := WriteAll(items);
    assert written[1..] == WriteAll(items[1..]);
    if |items| == 1 {
      follows := "}" + rest;
    } else {
      follows := "," + (Join(WriteAll(items[1..])) + "}" + rest);
      assert Join(written) == Quoted(items[0].key) + ":" + Dumps(items[0].value) + "," + Join(written[1..]);
      assert follows[1..] == Join(WriteAll(items[1..])) + "}" + rest;
    }
  }

  lemma OneTree(items: seq<Member>)
    requires |items| == 1
    ensures TreesOf(items) == map[items[0].key := TreeOf(items[0].value)]
  {
  }

  lemma MembersFollow(items: seq<Member>, follows: string, rest: string)
    requires |items| > 1 && follows != "" && follows[0] == ','
    requires ReadMembers(follows[1..]) == Some((TreesOf(items[1..]), rest))
    ensures AfterMember(items[0].key, TreeOf(items[0].value), follows) == Some((TreesOf(items), rest))
  {
  }

  lemma {:induction false} ReadInvertsJoin(items: seq<Member>, rest: string)
    requires AllRead(items) && KeysDistinct(items) && items != []
    ensures ReadMembers(Join(WriteAll(items)) + "}" + rest) == Some((TreesOf(items), rest))
  {
    var key, tree := items[0].key, TreeOf(items[0].value);
    var follows := JoinSplits(items, rest);
    ReadInvertsMember(key, Dumps(items[0].value), tree, follows);
    if |items| == 1 {
      assert follows[1..] == rest;
      OneTree(items);
    } else {
      ReadInvertsJoin(items[1..], rest);
      MembersFollow(items, follows, rest);
    }
  }

  lemma {:induction false} TreeKeys(items: seq<Member>, k: string)
    ensures k in TreesOf(items) <==> exists m :: m in items && m.key == k
  {
    if items == [] {
    } else {
      TreeKeys(items[1..], k);
      assert items == [items[0]] + items[1..];
    }
  }

  lemma {:induction false} TreeAtKey(items: seq<Member>, i: nat)
    requires KeysDistinct(items) && i < |items|
    ensures items[i].key in TreesOf(items) && TreesOf(items)[items[i].key] == TreeOf(items[i].value)
  {
    if i == 0 {
      TreeKeys(items[1..], items[0].key);
    } else {
      TreeAtKey(items[1..], i - 1);
    }
  }

  /** The tree of a dictionary does not depend on the order of its members. */
  lemma TreesOfAre(items: seq<Member>)
    requires KeysDistinct(items)
    ensures forall k :: k in TreesOf(items) <==> exists m :: m in items && m.key == k
    ensures forall m <- items :: m.key in TreesOf(items) && TreesOf(items)[m.key] == TreeOf(m.value)
  {
  }

  /** Dictionaries over the same keys in the same order have the same tree exactly when their values have. */
  lemma SameKeysSameTrees(a: seq<Member>, b: seq<Member>)
    requires |a| == |b| && KeysDistinct(a) && KeysDistinct(b)
    requires forall i | 0 <= i < |a| :: a[i].key == b[i].key
    ensures TreesOf(a) == TreesOf(b) <==> forall i | 0 <= i < |a| :: TreeOf(a[i].value) == TreeOf(b[i].value)
  {
    forall i | 0 <= i < |a|
      ensures a[i].key in TreesOf(a) && TreesOf(a)[a[i].key] == TreeOf(a[i].value)
      ensures a[i].key in TreesOf(b) && TreesOf(b)[a[i].key] == TreeOf(b[i].value)
    {
      TreeAtKey(a, i);
      TreeAtKey(b, i);
    }
    if forall i | 0 <= i < |a| :: TreeOf(a[i].value) == TreeOf(b[i].value) {
      SameValuesSameTrees(a, b);
    }
  }

  lemma {:induction false} SameValuesSameTrees(a: seq<Member>, b: seq<Member>)
    requires |a| == |b|
    requires forall i | 0 <= i < |a| :: a[i].key == b[i].key && TreeOf(a[i].value) == TreeOf(b[i].value)
    ensures TreesOf(a) == TreesOf(b)
  {
    if a == [] {
    } else {
      SameValuesSameTrees(a[1..], b[1..]);
    }
  }

  lemma SortedMembers(items: seq<Member>)
    requires KeysDistinct(items)
    ensures KeysDistinct(SortBy(KeyOf, items)) && TreesOf(SortBy(KeyOf, items)) == TreesOf(items)
    ensures |SortBy(KeyOf, items)| == |items| && forall m :: m in SortBy(KeyOf, items) <==> m in items
  {
    SortBySorts(KeyOf, items);
    var sorted := SortBy(KeyOf, items);
    assert |sorted| == |multiset(sorted)| && |items| == |multiset(items)|;
    forall m ensures m in sorted <==> m in items {
      assert m in multiset(sorted) <==> m in multiset(items);
    }
    DistinctFromMultiset(items, sorted);
    TreesOfAre(items);
    TreesOfAre(sorted);
  }

  lemma DistinctFromMultiset(a: seq<Member>, b: seq<Member>)
    requires KeysDistinct(a) && multiset(a) == multiset(b)
    ensures KeysDistinct(b)
  {
    forall i, j | 0 <= i < j < |b| ensures b[i].key != b[j].key {
      assert b[i] in multiset(a) && b[j] in multiset(a);
      var m :| 0 <= m < |a| && a[m] == b[i];
      var n :| 0 <= n < |a| && a[n] == b[j];
      if m == n {
        TwiceInMultiset(b, i, j);
        OnceInMultiset(a, m);
        assert false;
      }
    }
  }

  lemma TwiceInMultiset<T>(s: seq<T>, i: nat, j: nat)
    requires i < j < |s| && s[i] == s[j]
    ensures multiset(s)[s[i]] >= 2
  {
    assert s == s[..i] + [s[i]] + s[i + 1..j] + [s[j]] + s[j + 1..];
  }

  lemma OnceInMultiset<T>(s: seq<T>, i: nat)
    requires i < |s| && forall j | 0 <= j < |s| && j != i :: s[j] != s[i]
    ensures multiset(s)[s[i]] == 1
  {
    assert s == s[..i] + [s[i]] + s[i + 1..];
    assert s[i] !in s[..i] && s[i] !in s[i + 1..];
  }

  lemma DictReads(sorted: seq<Member>, rest: string)
    requires AllRead(sorted) && KeysDistinct(sorted)
    ensures ReadValue("{" + Join(WriteAll(sorted)) + "}" + rest) == Some((DictTree(TreesOf(sorted)), rest))
  {
    var text := "{" + Join(WriteAll(sorted)) + "}" + rest;
    if sorted == [] {
      assert text[2..] == rest;
    } else {
      assert text[1..] == Join(WriteAll(sorted)) + "}" + rest;
      ReadInvertsJoin(sorted, rest);
    }
  }

  lemma DictReadsAs(items: seq<Member>)
    requires KeysDistinct(items) && AllRead(items)
    ensures ReadsAs(Dumps(PlainDict(items)), TreeOf(PlainDict(items)))
  {
    var sorted := SortBy(KeyOf, items);
    SortWritten(items);
    SortedMembers(items);
    var text := Dumps(PlainDict(items));
    assert text == "{" + Join(WriteAll(sorted)) + "}";
    forall i | 0 <= i < |sorted| ensures ReadsAs(Dumps(sorted[i].value), TreeOf(sorted[i].value)) {
      assert sorted[i] in items;
    }
    forall rest: string ensures ReadValue(text + rest) == Some((DictTree(TreesOf(items)), rest)) {
      DictReads(sorted, rest);
    }
  }

  /** A code unit is written in exactly four lower-case hexadecimal digits. */
  lemma UnitsAreLowerCase(n: nat)
    requires n < 0x1_0000
    ensures |Unit(n)| == 6 && Unit(n)[..2] == "\\u"
    ensures forall i | 2 <= i < 6 :: '0' <= Unit(n)[i] <= '9' || 'a' <= Unit(n)[i] <= 'f'
  {
  }

  /** Text of plain characters is written as it is, between quotes. */
  lemma {:induction false} PlainTextStays(text: string)
    requires forall c <- text :: ' ' <= c <= '~' && c != '"' && c != '\\'
    ensures EscapeAll(text) == text
  {
    if text == "" {
    } else {
      assert text == [text[0]] + text[1..];
      forall c <- text[1..] ensures c in text {
      }
      PlainTextStays(text[1..]);
      assert text[0] in text && Escape(text[0]) == [text[0]];
    }
  }

  /** Members are written in the order of their keys by code point, whatever order they come in. */
  lemma MembersAreWrittenInOrder(items: seq<Member>, sorted: seq<Member>)
    requires Sorted(KeyOf, sorted) && UniqueKeys(KeyOf, items) && multiset(sorted) == multiset(items)
    ensures Dumps(PlainDict(items)) == "{" + Join(WriteAll(sorted)) + "}"
  {
    SortWritten(items);
    SortForgetsOrder(KeyOf, items, sorted);
    SortedStays(KeyOf, sorted);
  }

  /** The decoder: the whole text must be one value. */
  function Loads(text: string): Option<Tree> {
    match ReadValue(text)
    case None => None
    case Some((tree, rest)) => if rest == "" then Some(tree) else None
  }

  /** Reading back a written value gives the value, up to the order of dictionary members. */
  lemma LoadsInvertsDumps(v: Plain)
    requires WellFormed(v)
    ensures Loads(Dumps(v)) == Some(TreeOf(v))
  {
    ReadInvertsDumps(v);
    assert Dumps(v) + "" == Dumps(v);
  }

  // ---------------------------------------------------------------- equal texts, equal values

  lemma SameElements<T(!new)>(a: seq<T>, b: seq<T>)
    requires forall i, j | 0 <= i < j < |a| :: a[i] != a[j]
    requires forall i, j | 0 <= i < j < |b| :: b[i] != b[j]
    requires forall x :: x in a <==> x in b
    ensures multiset(a) == multiset(b)
  {
    forall x ensures multiset(a)[x] == multiset(b)[x] {
      if x in a {
        var i :| 0 <= i < |a| && a[i] == x;
        var j :| 0 <= j < |b| && b[j] == x;
        OnceInMultiset(a, i);
        OnceInMultiset(b, j);
      }
    }
  }

  /** The members that two dictionaries write down, with values written alike under equal keys. */
  ghost predicate WritesAlike(a: seq<Member>, b: seq<Member>) {
    forall m, n | m in a && n in b && m.key == n.key :: Dumps(m.value) == Dumps(n.value)
  }

  lemma WrittenElements(a: seq<Member>, b: seq<Member>, x: Written)
    requires KeysDistinct(a) && KeysDistinct(b) && TreesOf(a) == TreesOf(b) && WritesAlike(a, b)
    requires x in WriteAll(a)
    ensures x in WriteAll(b)
  {
    var i :| 0 <= i < |a| && WriteAll(a)[i] == x;
    TreeAtKey(a, i);
    TreeKeys(b, a[i].key);
    var n :| n in b && n.key == a[i].key;
    var j :| 0 <= j < |b| && b[j] == n;
    assert a[i] in a;
    assert WriteAll(b)[j] == x;
  }

  lemma DictsAlike(a: seq<Member>, b: seq<Member>)
    requires KeysDistinct(a) && KeysDistinct(b) && TreesOf(a) == TreesOf(b) && WritesAlike(a, b)
    ensures SortBy(WrittenKey, WriteAll(a)) == SortBy(WrittenKey, WriteAll(b))
  {
    forall x ensures x in WriteAll(a) <==> x in WriteAll(b) {
      if x in WriteAll(a) {
        WrittenElements(a, b, x);
      }
      if x in WriteAll(b) {
        WrittenElements(b, a, x);
      }
    }
    SameElements(WriteAll(a), WriteAll(b));
    SortForgetsOrder(WrittenKey, WriteAll(a), WriteAll(b));
  }

  /** Dictionaries that differ only in the order of their members, at any depth, give one text. */
  lemma {:induction false} OrderIsForgotten(v: Plain, w: Plain)
    requires WellFormed(v) && WellFormed(w) && TreeOf(v) == TreeOf(w)
    ensures Dumps(v) == Dumps(w)
    decreases v
  {
    if v.PlainDict? {
      forall m, n | m in v.items && n in w.items && m.key == n.key ensures Dumps(m.value) == Dumps(n.value) {
        var i :| 0 <= i < |v.items| && v.items[i] == m;
        var j :| 0 <= j < |w.items| && w.items[j] == n;
        TreeAtKey(v.items, i);
        TreeAtKey(w.items, j);
        OrderIsForgotten(v.items[i].value, w.items[j].value);
      }
      DictsAlike(v.items, w.items);
    }
  }

  /** Two values have the same canonical text exactly when they are equal up to the order of
      dictionary members. */
  lemma CanonicalTextIsInjective(v: Plain, w: Plain)
    requires WellFormed(v) && WellFormed(w)
    ensures Dumps(v) == Dumps(w) <==> TreeOf(v) == TreeOf(w)
  {
    LoadsInvertsDumps(v);
    LoadsInvertsDumps(w);
    if TreeOf(v) == TreeOf(w) {
      OrderIsForgotten(v, w);
    }
  }

  // ---------------------------------------------------------------- ASCII

  /** One byte in UTF-8, and no blank outside quoted text needs to be skipped. */
  predicate IsAscii(text: string) {
    forall c <- text :: ' ' <= c <= '~'
  }

  lemma UnitIsAscii(n: nat)
    requires n < 0x1_0000
    ensures IsAscii(Unit(n))
  {
  }

  lemma EscapeIsAscii(c: char)
    ensures IsAscii(Escape(c))
  {
    if ShortEscape(c).None? && !IsPlain(c) {
      if c as int < 0x1_0000 {
        UnitIsAscii(c as int);
      } else {
        var n := c as int - 0x1_0000;
        UnitIsAscii(0xD800 + n / 0x400);
        UnitIsAscii(0xDC00 + n % 0x400);
      }
    }
  }

  lemma {:induction false} EscapeAllIsAscii(text: string)
    ensures IsAscii(EscapeAll(text))
  {
    if text == "" {
    } else {
      EscapeIsAscii(text[0]);
      EscapeAllIsAscii(text[1..]);
    }
  }

  lemma {:induction false} JoinIsAscii(members: seq<Written>)
    requires forall m <- members :: IsAscii(m.text)
    ensures IsAscii(Join(members))
  {
    if members == [] {
    } else {
      EscapeAllIsAscii(members[0].key);
      assert IsAscii(members[0].text);
      JoinIsAscii(members[1..]);
    }
  }

  lemma SortedAreAscii(members: seq<Written>)
    requires forall m <- members :: IsAscii(m.text)
    ensures forall m <- SortBy(WrittenKey, members) :: IsAscii(m.text)
  {
    SortBySorts(WrittenKey, members);
    forall m <- SortBy(WrittenKey, members) ensures IsAscii(m.text) {
      assert m in multiset(SortBy(WrittenKey, members));
    }
  }

  lemma DictIsAscii(items: seq<Member>)
    requires forall m <- WriteAll(items) :: IsAscii(m.text)
    ensures IsAscii(Dumps(PlainDict(items)))
  {
    SortedAreAscii(WriteAll(items));
    JoinIsAscii(SortBy(WrittenKey, WriteAll(items)));
  }

  /** Canonical text is ASCII, so its UTF-8 bytes are its characters. */
  lemma {:induction false} DumpsIsAscii(v: Plain)
    ensures IsAscii(Dumps(v))
    decreases v
  {
    match v {
      case PlainText(text) => EscapeAllIsAscii(text);
      case PlainNumber(n) => DecimalIsDigits(if n < 0 then -n else n);
      case PlainDict(items) =>
        forall m <- WriteAll(items) ensures IsAscii(m.text) {
          var i :| 0 <= i < |items| && WriteAll(items)[i] == m;
          DumpsIsAscii(items[i].value);
        }
        DictIsAscii(items);
    }
  }
}
