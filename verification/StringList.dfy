// The bounded parser for list-valued attributes, which arrive as the printed form
// of a list of quoted strings.
module StringList {
  import opened Bytes
  import opened Wrappers

  type Text = seq<byte>

  const OPEN: byte := 91
  const CLOSE: byte := 93
  const COMMA: byte := 44
  const SPACE: byte := 32
  const BACKSLASH: byte := 92
  const LONGEST := 189

  predicate IsSpace(c: byte) {
    c == SPACE || 9 <= c <= 13
  }

  predicate IsQuote(c: byte) {
    c == 39 || c == 34
  }

  /** What an escaped character stands for: n, r and t are control characters. */
  function Unescape(c: byte): byte {
    if c == 110 then 10 else if c == 114 then 13 else if c == 116 then 9 else c
  }

  function Cut(v: Text): (w: Text)
    ensures |w| <= LONGEST
  {
    if |v| > LONGEST then v[..LONGEST] else v
  }

  function Skip(rest: Text, commas: bool): (r: Text)
    ensures |r| <= |rest|
  {
    if rest != [] && (IsSpace(rest[0]) || (commas && rest[0] == COMMA)) then Skip(rest[1..], commas) else rest
  }

  /** The value up to the closing quote, and what follows it. */
  function ReadQuoted(rest: Text, quote: byte, value: Text): (r: Option<(Text, Text)>)
    requires |value| <= LONGEST
    ensures r.Some? ==> |r.value.0| <= LONGEST && |r.value.1| < |rest|
    decreases |rest|
  {
    if rest == [] then None
    else if rest[0] == BACKSLASH && |rest| > 1 then ReadQuoted(rest[2..], quote, Cut(value + [Unescape(rest[1])]))
    else if rest[0] == quote then Some((value, rest[1..]))
    else ReadQuoted(rest[1..], quote, Cut(value + [rest[0]]))
  }

  /** What one round of the list loop meets: the end of the list, malformed text,
      or an item with a comma behind it. `add` holds the item unless it is empty. */
  datatype Round = End(add: seq<Text>) | Malformed | More(add: seq<Text>, after: Text)

  function Next(rest: Text): (round: Round)
    ensures !round.Malformed? ==> |round.add| <= 1 && forall v :: v in round.add ==> 0 < |v| <= LONGEST
    ensures round.More? ==> |round.after| < |rest|
  {
    var r := Skip(rest, true);
    if r == [] || r[0] == CLOSE then End([])
    else if !IsQuote(r[0]) then Malformed
    else
      var q := ReadQuoted(r[1..], r[0], []);
      if q.None? then Malformed else Follow(q.value.0, Skip(q.value.1, false))
  }

  function Follow(value: Text, after: Text): Round {
    var add := if value == [] then [] else [value];
    if after != [] && after[0] == CLOSE then End(add)
    else if after == [] || after[0] != COMMA then Malformed
    else More(add, after)
  }

  function Items(rest: Text, maximum: nat, result: seq<Text>): seq<Text>
    decreases |rest|
  {
    if rest == [] || |result| >= maximum then result
    else
      match Next(rest)
      case End(add) => result + add
      case Malformed => []
      case More(add, after) => Items(after, maximum, result + add)
  }

  function Parse(input: Text, maximum: nat): seq<Text> {
    var r := Skip(input, false);
    if r == [] || r[0] != OPEN then [] else Items(r[1..], maximum, [])
  }

  // ---------------------------------------------------------------- the loops

  method SkipLoop(input: Text, from: nat, commas: bool) returns (position: nat)
    requires from <= |input|
    ensures from <= position <= |input| && input[position..] == Skip(input[from..], commas)
  {
    position := from;
    while position < |input| && (IsSpace(input[position]) || (commas && input[position] == COMMA))
      invariant from <= position <= |input| && Skip(input[position..], commas) == Skip(input[from..], commas)
    {
      assert input[position..][1..] == input[position + 1..];
      position := position + 1;
    }
  }

  /** What reading on from a position comes to, in terms of the input. */
  lemma QuotedStep(input: Text, at: nat, quote: byte, value: Text, target: Option<(Text, Text)>)
    requires at < |input| && |value| <= LONGEST && target == ReadQuoted(input[at..], quote, value)
    ensures if input[at] == BACKSLASH && at + 1 < |input|
            then target == ReadQuoted(input[at + 2..], quote, Cut(value + [Unescape(input[at + 1])]))
            else if input[at] == quote then target == Some((value, input[at + 1..]))
            else target == ReadQuoted(input[at + 1..], quote, Cut(value + [input[at]]))
  {
    var rest := input[at..];
    assert rest[0] == input[at] && rest[1..] == input[at + 1..];
    assert |rest| > 1 ==> rest[1] == input[at + 1] && rest[2..] == input[at + 2..];
  }

  /** The loop over the characters, for what it should come to. */
  method QuotedLoop(input: Text, from: nat, quote: byte, ghost target: Option<(Text, Text)>)
    returns (value: Text, position: nat, closed: bool)
    requires from <= |input| && target == ReadQuoted(input[from..], quote, [])
    ensures from <= position <= |input|
    ensures closed == target.Some? && (closed ==> target.value == (value, input[position..]))
  {
    value, position, closed := [], from, false;
    while position < |input|
      invariant from <= position <= |input| && |value| <= LONGEST
      invariant target == ReadQuoted(input[position..], quote, value)
    {
      var character := input[position];
      QuotedStep(input, position, quote, value, target);
      position := position + 1;
      if character == BACKSLASH && position < |input| {
        value := value + [Unescape(input[position])];
        position := position + 1;
      } else if character == quote {
        closed := true;
        return;
      } else {
        value := value + [character];
      }
      value := Cut(value);
    }
  }

  /** The quoted string of a round, and the white space behind it. */
  method QuotedRound(input: Text, from: nat, quote: byte) returns (round: Round, position: nat)
    requires from <= |input|
    ensures var q := ReadQuoted(input[from..], quote, []);
            round == if q.None? then Malformed else Follow(q.value.0, Skip(q.value.1, false))
    ensures from <= position <= |input| && (round.More? ==> round.after == input[position..])
  {
    var value, after, closed := QuotedLoop(input, from, quote, ReadQuoted(input[from..], quote, []));
    if !closed {
      return Malformed, from;
    }
    position := SkipLoop(input, after, false);
    round := Follow(value, input[position..]);
  }

  /** One round: a separator run, a quoted string, and what follows it. */
  method ItemRound(input: Text, from: nat) returns (round: Round, position: nat)
    requires from <= |input|
    ensures round == Next(input[from..]) && position <= |input|
    ensures round.More? ==> from < position && round.after == input[position..]
  {
    position := SkipLoop(input, from, true);
    ghost var rest := input[position..];
    if position >= |input| || input[position] == CLOSE {
      return End([]), position;
    }
    var quote := input[position];
    if !IsQuote(quote) {
      return Malformed, position;
    }
    assert rest[1..] == input[position + 1..];
    round, position := QuotedRound(input, position + 1, quote);
  }

  /** parse_home_assistant_string_list */
  method ParseStringList(input: Text, maximum: nat) returns (result: seq<Text>)
    ensures result == Parse(input, maximum)
  {
    result := [];
    var position := SkipLoop(input, 0, false);
    assert input[0..] == input;
    if position >= |input| || input[position] != OPEN {
      return [];
    }
    assert input[position..][1..] == input[position + 1..];
    position := position + 1;
    while position < |input| && |result| < maximum
      invariant position <= |input|
      invariant Parse(input, maximum) == Items(input[position..], maximum, result)
      decreases |input| - position
    {
      var round, next := ItemRound(input, position);
      match round
      case End(add) => return result + add;
      case Malformed => return [];
      case More(add, _) => result, position := result + add, next;
    }
  }

  /** Whatever the input, the result is bounded and holds no empty string. */
  lemma {:induction false} ItemsBounded(rest: Text, maximum: nat, result: seq<Text>)
    requires |result| <= maximum && forall v :: v in result ==> 0 < |v| <= LONGEST
    ensures |Items(rest, maximum, result)| <= maximum
    ensures forall v :: v in Items(rest, maximum, result) ==> 0 < |v| <= LONGEST
    decreases |rest|
  {
    if rest != [] && |result| < maximum && Next(rest).More? {
      ItemsBounded(Next(rest).after, maximum, result + Next(rest).add);
    }
  }

  lemma ParseBounded(input: Text, maximum: nat)
    ensures |Parse(input, maximum)| <= maximum
    ensures forall v :: v in Parse(input, maximum) ==> 0 < |v| <= LONGEST
  {
    var r := Skip(input, false);
    if r != [] && r[0] == OPEN {
      ItemsBounded(r[1..], maximum, []);
    }
  }

  // ------------------------------------------------------------- the printer

  /** A character of a string as it is written: itself, or behind a backslash. */
  datatype Unit = Plain(c: byte) | Escaped(c: byte)

  /** One string as it is written: separators before the opening quote, white space after
      the closing one. */
  datatype Item = Item(lead: Text, quote: byte, units: seq<Unit>, trail: Text)

  /** A list as it is written. `end` is what may stand between the last string and the
      bracket: nothing, or a comma and more separators; `after` is anything at all. */
  datatype Rendering = Rendering(before: Text, items: seq<Item>, end: Text, after: Text)

  predicate Spaces(t: Text) {
    forall i :: 0 <= i < |t| ==> IsSpace(t[i])
  }

  predicate Separators(t: Text) {
    forall i :: 0 <= i < |t| ==> IsSpace(t[i]) || t[i] == COMMA
  }

  /** A quote or a backslash has to be escaped, anything else may be. */
  predicate WellWritten(units: seq<Unit>, quote: byte) {
    forall i :: 0 <= i < |units| ==> units[i].Plain? ==> units[i].c != quote && units[i].c != BACKSLASH
  }

  predicate ValidItem(item: Item) {
    IsQuote(item.quote) && Separators(item.lead) && Spaces(item.trail) && WellWritten(item.units, item.quote)
  }

  predicate Valid(r: Rendering) {
    && Spaces(r.before) && Separators(r.end) && (forall i :: 0 <= i < |r.items| ==> ValidItem(r.items[i]))
    && (r.items != [] && r.end != [] ==> r.end[0] == COMMA)
  }

  function Write(u: Unit): Text {
    if u.Escaped? then [BACKSLASH, u.c] else [u.c]
  }

  function Meaning(u: Unit): byte {
    if u.Escaped? then Unescape(u.c) else u.c
  }

  function Written(units: seq<Unit>): Text {
    if units == [] then [] else Write(units[0]) + Written(units[1..])
  }

  function TextOf(units: seq<Unit>): Text {
    seq(|units|, i requires 0 <= i < |units| => Meaning(units[i]))
  }

  function PrintQuoted(item: Item): Text {
    [item.quote] + Written(item.units) + [item.quote]
  }

  function PrintItem(item: Item): Text {
    item.lead + PrintQuoted(item) + item.trail
  }

  function PrintItems(items: seq<Item>): Text {
    if items == [] then []
    else PrintItem(items[0]) + if |items| == 1 then [] else [COMMA] + PrintItems(items[1..])
  }

  function Print(r: Rendering): Text {
    r.before + [OPEN] + (PrintItems(r.items) + (r.end + [CLOSE] + r.after))
  }

  /** What a string means to the parser: dropped if empty, cut if long. */
  function Added(item: Item): seq<Text> {
    if item.units == [] then [] else [Cut(TextOf(item.units))]
  }

  function Kept(items: seq<Item>): seq<Text> {
    if items == [] then [] else Added(items[0]) + Kept(items[1..])
  }

  function Take(list: seq<Text>, n: nat): seq<Text> {
    if |list| <= n then list else list[..n]
  }

  lemma CutTwice(value: Text, c: byte, v: Text)
    ensures Cut(Cut(value + [c]) + v) == Cut(value + ([c] + v))
  {
    assert value + [c] + v == value + ([c] + v);
    if |value + [c]| > LONGEST {
      assert (value + ([c] + v))[..LONGEST] == (value + [c])[..LONGEST];
      assert ((value + [c])[..LONGEST] + v)[..LONGEST] == (value + [c])[..LONGEST];
    }
  }

  lemma ReadOne(u: Unit, quote: byte, rest: Text, value: Text)
    requires |value| <= LONGEST && IsQuote(quote) && WellWritten([u], quote)
    ensures ReadQuoted(Write(u) + rest, quote, value) == ReadQuoted(rest, quote, Cut(value + [Meaning(u)]))
  {
    var e := Write(u);
    assert [u][0] == u;
    assert u.Escaped? ==> (e + rest)[2..] == rest;
    assert u.Plain? ==> (e + rest)[1..] == rest;
  }

  lemma {:induction false} ReadPrinted(units: seq<Unit>, quote: byte, tail: Text, value: Text)
    requires |value| <= LONGEST && IsQuote(quote) && WellWritten(units, quote)
    ensures ReadQuoted(Written(units) + ([quote] + tail), quote, value) == Some((Cut(value + TextOf(units)), tail))
    decreases |units|
  {
    if units == [] {
      assert Written(units) + ([quote] + tail) == [quote] + tail;
      assert ([quote] + tail)[1..] == tail && value + TextOf(units) == value;
    } else {
      var rest := Written(units[1..]) + ([quote] + tail);
      assert Written(units) + ([quote] + tail) == Write(units[0]) + rest;
      ReadOne(units[0], quote, rest, value);
      ReadPrinted(units[1..], quote, tail, Cut(value + [Meaning(units[0])]));
      CutTwice(value, Meaning(units[0]), TextOf(units[1..]));
      assert [Meaning(units[0])] + TextOf(units[1..]) == TextOf(units);
    }
  }

  lemma ReadPrintedItem(item: Item, tail: Text)
    requires ValidItem(item)
    ensures var body := PrintQuoted(item) + tail;
            body[0] == item.quote && ReadQuoted(body[1..], item.quote, []) == Some((Cut(TextOf(item.units)), tail))
  {
    var body := PrintQuoted(item) + tail;
    assert body[1..] == Written(item.units) + ([item.quote] + tail);
    ReadPrinted(item.units, item.quote, tail, []);
    assert [] + TextOf(item.units) == TextOf(item.units);
  }

  lemma {:induction false} SkipSeparators(lead: Text, body: Text)
    requires Separators(lead)
    ensures Skip(lead + body, true) == Skip(body, true)
  {
    if lead == [] {
      assert lead + body == body;
    } else {
      assert (lead + body)[1..] == lead[1..] + body;
      SkipSeparators(lead[1..], body);
    }
  }

  lemma {:induction false} SkipSpaces(lead: Text, body: Text)
    requires Spaces(lead)
    ensures Skip(lead + body, false) == Skip(body, false)
  {
    if lead == [] {
      assert lead + body == body;
    } else {
      assert (lead + body)[1..] == lead[1..] + body;
      SkipSpaces(lead[1..], body);
    }
  }

  lemma NextQuoted(rest: Text, r: Text, value: Text, tail: Text, after: Text)
    requires Skip(rest, true) == r && r != [] && IsQuote(r[0])
    requires ReadQuoted(r[1..], r[0], []) == Some((value, tail)) && Skip(tail, false) == after
    ensures Next(rest) == Follow(value, after)
  {
  }

  predicate Closes(tail: Text) {
    tail != [] && (tail[0] == COMMA || tail[0] == CLOSE)
  }

  lemma SkipTrail(trail: Text, tail: Text)
    requires Spaces(trail) && Closes(tail)
    ensures Skip(trail + tail, false) == tail
  {
    SkipSpaces(trail, tail);
  }

  lemma FollowClosing(item: Item, tail: Text)
    requires Closes(tail)
    ensures Follow(Cut(TextOf(item.units)), tail)
         == if tail[0] == CLOSE then End(Added(item)) else More(Added(item), tail)
  {
  }

  /** One written item, after what was left before it, in front of the rest of the list. */
  lemma NextPrinted(item: Item, tail: Text, lead: Text)
    requires ValidItem(item) && Separators(lead) && Closes(tail)
    ensures Next(lead + (PrintItem(item) + tail))
         == if tail[0] == CLOSE then End(Added(item)) else More(Added(item), tail)
  {
    var before, body := lead + item.lead, PrintQuoted(item) + (item.trail + tail);
    assert lead + (PrintItem(item) + tail) == before + body;
    ReadPrintedItem(item, item.trail + tail);
    SkipSeparators(before, body);
    SkipTrail(item.trail, tail);
    NextQuoted(before + body, body, Cut(TextOf(item.units)), item.trail + tail, tail);
    FollowClosing(item, tail);
  }

  lemma NextEnd(lead: Text, after: Text)
    requires Separators(lead)
    ensures Next(lead + ([CLOSE] + after)) == End([])
  {
    SkipSeparators(lead, [CLOSE] + after);
  }

  /** What follows the first item. */
  function Behind(items: seq<Item>, tail: Text): Text
    requires items != []
  {
    if |items| == 1 then tail else [COMMA] + (PrintItems(items[1..]) + tail)
  }

  lemma Regroup(a: Text, b: Text, c: Text, d: Text)
    ensures a + (b + c) + d == a + (b + (c + d))
  {
  }

  lemma PrintedFirst(items: seq<Item>, tail: Text)
    requires items != []
    ensures PrintItems(items) + tail == PrintItem(items[0]) + Behind(items, tail)
  {
    if |items| == 1 {
      assert PrintItem(items[0]) + [] == PrintItem(items[0]);
    } else {
      Regroup(PrintItem(items[0]), [COMMA], PrintItems(items[1..]), tail);
    }
  }

  /** The list may end in a comma. */
  lemma EndPrinted(end: Text, after: Text, tail: Text, maximum: nat, result: seq<Text>)
    requires Separators(end) && tail == end + [CLOSE] + after && |result| <= maximum
    ensures Items(tail, maximum, result) == result
  {
    assert tail == end + ([CLOSE] + after);
    NextEnd(end, after);
    assert result + [] == result;
  }

  lemma {:induction false} ItemsPrinted(items: seq<Item>, end: Text, after: Text, tail: Text, maximum: nat,
                                        result: seq<Text>, lead: Text)
    requires items != [] && forall i :: 0 <= i < |items| ==> ValidItem(items[i])
    requires |result| <= maximum && Separators(lead) && Separators(end) && (end != [] ==> end[0] == COMMA)
    requires tail == end + [CLOSE] + after
    ensures Items(lead + (PrintItems(items) + tail), maximum, result) == Take(result + Kept(items), maximum)
    decreases |items|
  {
    var more := Kept(items[1..]);
    if |result| == maximum {
      assert (result + Kept(items))[..maximum] == result;
    } else {
      PrintedFirst(items, tail);
      NextPrinted(items[0], Behind(items, tail), lead);
      assert result + (Added(items[0]) + more) == result + Added(items[0]) + more;
      if |items| > 1 {
        ItemsPrinted(items[1..], end, after, tail, maximum, result + Added(items[0]), [COMMA]);
      } else {
        EndPrinted(end, after, tail, maximum, result + Added(items[0]));
        assert result + Added(items[0]) + [] == result + Added(items[0]);
      }
    }
  }

  lemma ParseOpened(before: Text, body: Text, maximum: nat)
    requires Spaces(before)
    ensures Parse(before + [OPEN] + body, maximum) == Items(body, maximum, [])
  {
    assert before + [OPEN] + body == before + ([OPEN] + body);
    SkipSpaces(before, [OPEN] + body);
    assert ([OPEN] + body)[1..] == body;
  }

  /** However a list is written, with any white space, either quote, any escapes, doubled or
      trailing commas and whatever follows the bracket: parsing it gives its strings, those
      that are not empty, cut to the longest a payload can carry, as many as were asked for. */
  lemma ParsePrint(r: Rendering, maximum: nat)
    requires Valid(r)
    ensures Parse(Print(r), maximum) == Take(Kept(r.items), maximum)
  {
    var tail := r.end + [CLOSE] + r.after;
    ParseOpened(r.before, PrintItems(r.items) + tail, maximum);
    if r.items == [] {
      assert PrintItems(r.items) + tail == tail;
      EndPrinted(r.end, r.after, tail, maximum, []);
    } else {
      assert [] + (PrintItems(r.items) + tail) == PrintItems(r.items) + tail;
      ItemsPrinted(r.items, r.end, r.after, tail, maximum, [], []);
      assert [] + Kept(r.items) == Kept(r.items);
    }
  }

  /** No round can begin like this. */
  predicate Bad(c: byte) {
    !IsSpace(c) && !IsQuote(c) && c != COMMA && c != CLOSE
  }

  lemma NextBad(lead: Text, c: byte, rest: Text, bad: Text)
    requires Separators(lead) && Bad(c) && bad == [COMMA] + lead + [c] + rest
    ensures Next(bad) == Malformed
  {
    var before := [COMMA] + lead;
    assert bad == before + ([c] + rest);
    SkipSeparators(before, [c] + rest);
  }

  lemma {:induction false} BadItems(items: seq<Item>, bad: Text, maximum: nat, result: seq<Text>, lead: Text)
    requires items != [] && forall i :: 0 <= i < |items| ==> ValidItem(items[i])
    requires |result| <= maximum && Separators(lead) && bad != [] && bad[0] == COMMA && Next(bad) == Malformed
    ensures Items(lead + (PrintItems(items) + bad), maximum, result)
         == if |result + Kept(items)| >= maximum then Take(result + Kept(items), maximum) else []
    decreases |items|
  {
    var more := Kept(items[1..]);
    if |result| == maximum {
      assert (result + Kept(items))[..maximum] == result;
    } else {
      PrintedFirst(items, bad);
      NextPrinted(items[0], Behind(items, bad), lead);
      assert result + (Added(items[0]) + more) == result + Added(items[0]) + more;
      if |items| > 1 {
        BadItems(items[1..], bad, maximum, result + Added(items[0]), [COMMA]);
      } else {
        assert result + Added(items[0]) + [] == result + Added(items[0]);
      }
    }
  }

  /** A list that breaks off in garbage counts for nothing, unless enough strings came before:
      the parser never gives part of a malformed list for the whole. */
  lemma ParseMalformed(before: Text, items: seq<Item>, lead: Text, c: byte, rest: Text, maximum: nat)
    requires Spaces(before) && items != [] && forall i :: 0 <= i < |items| ==> ValidItem(items[i])
    requires Separators(lead) && Bad(c)
    ensures Parse(before + [OPEN] + (PrintItems(items) + ([COMMA] + lead + [c] + rest)), maximum)
         == if |Kept(items)| >= maximum then Take(Kept(items), maximum) else []
  {
    var bad := [COMMA] + lead + [c] + rest;
    NextBad(lead, c, rest, bad);
    ParseOpened(before, PrintItems(items) + bad, maximum);
    assert [] + (PrintItems(items) + bad) == PrintItems(items) + bad && [] + Kept(items) == Kept(items);
    BadItems(items, bad, maximum, [], []);
  }

  /** And what does not begin with a bracket is no list. */
  lemma ParseUnopened(before: Text, rest: Text, maximum: nat)
    requires Spaces(before) && (rest == [] || (!IsSpace(rest[0]) && rest[0] != OPEN))
    ensures Parse(before + rest, maximum) == []
  {
    SkipSpaces(before, rest);
  }

  /** White space is what isspace says: the blank, tab, line feed, vertical tab, form feed and
      carriage return. */
  lemma SpacesAre(c: byte)
    ensures IsSpace(c) <==> c in {32, 9, 10, 11, 12, 13}
  {
  }

  /** In particular nothing changes when the strings are non-empty, short and few enough. */
  lemma NothingChanges(r: Rendering, maximum: nat)
    requires Valid(r) && |r.items| <= maximum
    requires forall i :: 0 <= i < |r.items| ==> 0 < |r.items[i].units| <= LONGEST
    ensures Parse(Print(r), maximum) == seq(|r.items|, i requires 0 <= i < |r.items| => TextOf(r.items[i].units))
  {
    ParsePrint(r, maximum);
    KeptAll(r.items);
  }

  lemma {:induction false} KeptAll(items: seq<Item>)
    requires forall i :: 0 <= i < |items| ==> 0 < |items[i].units| <= LONGEST
    ensures Kept(items) == seq(|items|, i requires 0 <= i < |items| => TextOf(items[i].units))
  {
    if items != [] {
      KeptAll(items[1..]);
    }
  }

  /** Backslash escapes for the quote, the backslash and the three control characters. */
  function EscapeOne(c: byte, quote: byte): Unit {
    if c == BACKSLASH || c == quote then Escaped(c)
    else if c == 10 then Escaped(110)
    else if c == 13 then Escaped(114)
    else if c == 9 then Escaped(116)
    else Plain(c)
  }

  function Escape(v: Text, quote: byte): seq<Unit> {
    seq(|v|, i requires 0 <= i < |v| => EscapeOne(v[i], quote))
  }

  /** The printed form Home Assistant sends: strings in one kind of quote, comma and blank
      between them. */
  function Plainly(texts: seq<Text>, quote: byte): Rendering {
    Rendering([], seq(|texts|, i requires 0 <= i < |texts| =>
                        Item(if i == 0 then [] else [SPACE], quote, Escape(texts[i], quote), [])), [], [])
  }

  /** Every list of non-empty, short strings, few enough, survives being printed and parsed. */
  lemma RoundTrip(texts: seq<Text>, quote: byte, maximum: nat)
    requires IsQuote(quote) && |texts| <= maximum && forall i :: 0 <= i < |texts| ==> 0 < |texts[i]| <= LONGEST
    ensures Parse(Print(Plainly(texts, quote)), maximum) == texts
  {
    var r := Plainly(texts, quote);
    forall i | 0 <= i < |texts| ensures TextOf(r.items[i].units) == texts[i] && ValidItem(r.items[i]) {
      assert r.items[i].units == Escape(texts[i], quote);
    }
    NothingChanges(r, maximum);
  }
}
