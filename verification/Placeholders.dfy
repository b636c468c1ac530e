/** Compiler placeholders $1, $2, … rewritten for drivers that fill %s from left to right. */
module Placeholders {
  import opened Prelude
  import opened Strings

  datatype SourceType = MySQL | MariaDB | PostgreSQL | SQLServer | ClickHouse | Oracle

  /** A text as the placeholder pattern divides it: a placeholder by its number, anything else by character. */
  datatype Part = Char(c: char) | Slot(number: nat)

  /** A statement with its values in place. */
  datatype Item<V> = Text(c: char) | Value(value: V)

  predicate StartsSlot(sql: string, index: nat) {
    index + 1 < |sql| && sql[index] == '$' && '1' <= sql[index + 1] <= '9'
  }

  /** The pattern takes as many digits as there are. */
  function DigitsEnd(sql: string, index: nat): (end: nat)
    requires index <= |sql|
    ensures index <= end <= |sql| && (forall i | index <= i < end :: IsDigit(sql[i]))
    ensures end < |sql| ==> !IsDigit(sql[end])
    decreases |sql| - index
  {
    if index < |sql| && IsDigit(sql[index]) then DigitsEnd(sql, index + 1) else index
  }

  function Number(digits: string): nat
    requires forall i | 0 <= i < |digits| :: IsDigit(digits[i])
  {
    if digits == "" then 0
    else
      assert IsDigit(digits[|digits| - 1]);
      10 * Number(digits[..|digits| - 1]) + (digits[|digits| - 1] as int - '0' as int)
  }

  function PartEnd(sql: string, index: nat): (end: nat)
    requires index < |sql|
    ensures index < end <= |sql|
  {
    if StartsSlot(sql, index) then DigitsEnd(sql, index + 1) else index + 1
  }

  function PartAt(sql: string, index: nat): Part
    requires index < |sql|
  {
    if StartsSlot(sql, index) then Slot(Number(sql[index + 1..PartEnd(sql, index)])) else Char(sql[index])
  }

  function Parse(sql: string, index: nat): seq<Part>
    requires index <= |sql|
    decreases |sql| - index
  {
    if index == |sql| then [] else [PartAt(sql, index)] + Parse(sql, PartEnd(sql, index))
  }

  function Spelt(part: Part): string {
    match part
    case Char(c) => [c]
    case Slot(number) => "$" + Itoa(number)
  }

  function Render(parts: seq<Part>): string {
    if parts == [] then "" else Spelt(parts[0]) + Render(parts[1..])
  }

  lemma {:induction false} NumberIsSpelt(digits: string)
    requires digits != "" && digits[0] != '0'
    requires forall i | 0 <= i < |digits| :: IsDigit(digits[i])
    ensures Number(digits) > 0 && Itoa(Number(digits)) == digits
  {
    var front, last := digits[..|digits| - 1], digits[|digits| - 1];
    assert digits == front + [last];
    if front != "" {
      NumberIsSpelt(front);
      assert Number(digits) / 10 == Number(front);
    } else {
      assert Number(front) == 0;
    }
  }

  lemma PartIsSpelt(sql: string, index: nat)
    requires index < |sql|
    ensures Spelt(PartAt(sql, index)) == sql[index..PartEnd(sql, index)]
    ensures PartAt(sql, index).Slot? ==> PartAt(sql, index).number > 0
  {
    if StartsSlot(sql, index) {
      var end := DigitsEnd(sql, index + 1);
      assert end > index + 1;
      NumberIsSpelt(sql[index + 1..end]);
      assert sql[index..end] == "$" + sql[index + 1..end];
    }
  }

  lemma RenderedFirst(part: Part, rest: seq<Part>)
    ensures Render([part] + rest) == Spelt(part) + Render(rest)
  {
    assert ([part] + rest)[1..] == rest;
  }

  /** The parts spell the text. */
  lemma {:induction false} PartsSpellTheText(sql: string, index: nat)
    requires index <= |sql|
    ensures Render(Parse(sql, index)) == sql[index..]
    decreases |sql| - index
  {
    if index < |sql| {
      var end := PartEnd(sql, index);
      PartIsSpelt(sql, index);
      PartsSpellTheText(sql, end);
      RenderedFirst(PartAt(sql, index), Parse(sql, end));
      SliceSplits(sql, index, end);
    }
  }

  lemma SliceSplits(sql: string, index: nat, end: nat)
    requires index <= end <= |sql|
    ensures sql[index..] == sql[index..end] + sql[end..]
  {
  }

  // ---- The division is the only one -----------------------------------------------------------------------------

  predicate IsCharFrom(part: Part, low: char, high: char) {
    part.Char? && low <= part.c <= high
  }

  /** A placeholder is not left unnoticed, and takes all its digits. */
  predicate MayFollow(part: Part, next: Part) {
    && (part.Slot? ==> !IsCharFrom(next, '0', '9'))
    && (part == Char('$') ==> !IsCharFrom(next, '1', '9'))
  }

  ghost predicate WellDivided(parts: seq<Part>) {
    && (forall i | 0 <= i < |parts| && parts[i].Slot? :: parts[i].number > 0)
    && (forall i | 0 < i < |parts| :: MayFollow(parts[i - 1], parts[i]))
  }

  lemma WellDividedGrows(part: Part, rest: seq<Part>)
    ensures WellDivided([part] + rest) <==>
              WellDivided(rest) && (part.Slot? ==> part.number > 0) && (rest != [] ==> MayFollow(part, rest[0]))
  {
    var parts := [part] + rest;
    assert forall i | 0 < i < |parts| :: parts[i] == rest[i - 1];
    assert parts[0] == part && rest != [] ==> parts[1] == rest[0];
    if WellDivided(parts) {
      assert rest != [] ==> MayFollow(parts[1 - 1], parts[1]);
      forall i | 0 < i < |rest| ensures MayFollow(rest[i - 1], rest[i]) {
        assert MayFollow(parts[i + 1 - 1], parts[i + 1]);
      }
      forall i | 0 <= i < |rest| && rest[i].Slot? ensures rest[i].number > 0 {
        assert parts[i + 1].Slot?;
      }
    }
  }

  lemma NextPartMayFollow(sql: string, index: nat)
    requires index < |sql| && PartEnd(sql, index) < |sql|
    ensures MayFollow(PartAt(sql, index), PartAt(sql, PartEnd(sql, index)))
  {
  }

  /** The pattern leaves no placeholder unnoticed and takes every digit. */
  lemma {:induction false} PartsAreWellDivided(sql: string, index: nat)
    requires index <= |sql|
    ensures WellDivided(Parse(sql, index))
    decreases |sql| - index
  {
    if index < |sql| {
      var end := PartEnd(sql, index);
      PartsAreWellDivided(sql, end);
      PartIsSpelt(sql, index);
      if end < |sql| {
        NextPartMayFollow(sql, index);
      }
      WellDividedGrows(PartAt(sql, index), Parse(sql, end));
    }
  }

  lemma {:induction false} ItoaStartsHigh(n: nat)
    requires n > 0
    ensures '1' <= Itoa(n)[0] <= '9'
  {
    if n >= 10 {
      ItoaStartsHigh(n / 10);
    }
  }

  lemma NumberOfItoa(n: nat)
    requires n > 0
    ensures Number(Itoa(n)) == n
  {
    ItoaStartsHigh(n);
    NumberIsSpelt(Itoa(n));
    ItoaIsInjective(Number(Itoa(n)), n);
  }

  /** The first character of what follows tells where a part ends. */
  lemma RenderStarts(rest: seq<Part>)
    requires rest != []
    ensures Render(rest) != "" && Render(rest)[0] == (if rest[0].Char? then rest[0].c else '$')
  {
  }

  lemma CharIsFound(sql: string, index: nat, c: char, tail: string)
    requires index <= |sql| && sql[index..] == [c] + tail
    requires c == '$' && tail != "" ==> !('1' <= tail[0] <= '9')
    ensures index < |sql| && PartAt(sql, index) == Char(c) && sql[PartEnd(sql, index)..] == tail
  {
    assert sql[index] == c && sql[index + 1..] == tail by {
      assert sql[index..][0] == c && sql[index..][1..] == tail;
    }
  }

  lemma SlotIsFound(sql: string, index: nat, number: nat, tail: string)
    requires index <= |sql| && sql[index..] == Spelt(Slot(number)) + tail && number > 0
    requires tail != "" ==> !IsDigit(tail[0])
    ensures index < |sql| && PartAt(sql, index) == Slot(number) && sql[PartEnd(sql, index)..] == tail
  {
    var digits := Itoa(number);
    var end := index + 1 + |digits|;
    ItoaStartsHigh(number);
    NumberOfItoa(number);
    TextIsSplit(sql, index, digits, tail);
    assert forall i | index + 1 <= i < end :: sql[i] == sql[index + 1..end][i - index - 1];
    assert end < |sql| ==> sql[end] == tail[0];
    assert DigitsEnd(sql, index + 1) == end;
  }

  lemma TextIsSplit(sql: string, index: nat, digits: string, tail: string)
    requires index <= |sql| && sql[index..] == "$" + digits + tail
    ensures var end := index + 1 + |digits|;
            end <= |sql| && sql[index] == '$' && sql[index + 1..end] == digits && sql[end..] == tail
  {
    var text, end := sql[index..], index + 1 + |digits|;
    assert text[0] == '$' && text[1..1 + |digits|] == digits && text[1 + |digits|..] == tail;
    assert sql[index + 1..end] == text[1..1 + |digits|] && sql[end..] == text[1 + |digits|..];
  }

  lemma FirstPartIsFound(sql: string, index: nat, part: Part, rest: seq<Part>)
    requires index <= |sql| && sql[index..] == Spelt(part) + Render(rest)
    requires part.Slot? ==> part.number > 0
    requires rest != [] ==> MayFollow(part, rest[0])
    ensures index < |sql| && PartAt(sql, index) == part && sql[PartEnd(sql, index)..] == Render(rest)
  {
    if rest != [] {
      RenderStarts(rest);
    }
    match part
    case Char(c) => CharIsFound(sql, index, c, Render(rest));
    case Slot(number) => SlotIsFound(sql, index, number, Render(rest));
  }

  /** No other division that leaves no placeholder unnoticed and takes every digit spells the text. */
  lemma {:induction false} DivisionIsUnique(sql: string, index: nat, parts: seq<Part>)
    requires index <= |sql| && WellDivided(parts) && Render(parts) == sql[index..]
    ensures parts == Parse(sql, index)
    decreases |parts|
  {
    if parts != [] {
      var part, rest := parts[0], parts[1..];
      assert parts == [part] + rest;
      WellDividedGrows(part, rest);
      FirstPartIsFound(sql, index, part, rest);
      DivisionIsUnique(sql, PartEnd(sql, index), rest);
    }
  }

  // ---- The rewriting ------------------------------------------------------------------------------------------

  function Adapted(parts: seq<Part>): string {
    if parts == [] then "" else AdaptedPart(parts[0]) + Adapted(parts[1..])
  }

  function AdaptedPart(part: Part): string {
    if part.Slot? then "%s" else [part.c]
  }

  predicate InRange(parts: seq<Part>, size: nat) {
    forall i | 0 <= i < |parts| :: parts[i].Slot? ==> 0 < parts[i].number <= size
  }

  function Ordered<V>(parts: seq<Part>, parameters: seq<V>): seq<V>
    requires InRange(parts, |parameters|)
  {
    if parts == [] then []
    else
      TailInRange(parts, |parameters|);
      OrderedPart(parts[0], parameters) + Ordered(parts[1..], parameters)
  }

  function OrderedPart<V>(part: Part, parameters: seq<V>): seq<V>
    requires part.Slot? ==> 0 < part.number <= |parameters|
  {
    if part.Slot? then [parameters[part.number - 1]] else []
  }

  lemma TailInRange(parts: seq<Part>, size: nat)
    requires parts != [] && InRange(parts, size)
    ensures InRange(parts[1..], size) && (parts[0].Slot? ==> 0 < parts[0].number <= size)
  {
    assert forall i | 0 <= i < |parts| - 1 :: parts[1..][i] == parts[i + 1];
  }

  /** What the compiler means: each placeholder stands for the parameter it numbers. */
  function FillByIndex<V>(parts: seq<Part>, parameters: seq<V>): (items: seq<Item<V>>)
    requires InRange(parts, |parameters|)
    ensures |items| == |parts|
  {
    seq(|parts|, i requires 0 <= i < |parts| =>
      match parts[i] case Char(c) => Text(c) case Slot(number) => Value(parameters[number - 1]))
  }

  /** What a driver makes of a percent sign and the characters after it; in a shape, None stands for the next value. */
  datatype Directive = Percent(length: nat) | Conversion(length: nat, shape: seq<Option<char>>) | Bad

  /** A driver's format style. */
  type Dialect = string -> Directive

  /** The escape of a percent sign ends with another one; a conversion spells none; and %s is the next value itself. */
  ghost predicate IsFormatStyle(dialect: Dialect) {
    forall text: string | text != "" && text[0] == '%' ::
      && (match dialect(text)
          case Percent(length) => 2 <= length <= |text| && text[length - 1] == '%'
          case Conversion(length, shape) => 2 <= length <= |text| && Some('%') !in shape
          case Bad => true)
      && (|text| > 1 && text[1] == 's' ==> dialect(text) == Conversion(2, [None]))
  }

  function Shaped<V>(shape: seq<Option<char>>, value: V): (items: seq<Item<V>>)
    ensures |items| == |shape|
  {
    seq(|shape|, i requires 0 <= i < |shape| =>
      match shape[i] case Some(c) => Text(c) case None => Value(value))
  }

  /** What a driver does with a statement and values: every conversion takes the next value, and all must be taken. */
  function FillInOrder<V>(dialect: Dialect, sql: string, values: seq<V>): Option<seq<Item<V>>>
    decreases |sql|
  {
    if sql == "" then (if values == [] then Some([]) else None)
    else if sql[0] != '%' then Then([Text(sql[0])], FillInOrder(dialect, sql[1..], values))
    else
      match dialect(sql)
      case Percent(length) =>
        if 2 <= length <= |sql| then Then([Text('%')], FillInOrder(dialect, sql[length..], values)) else None
      case Conversion(length, shape) =>
        if 2 <= length <= |sql| && values != []
        then Then(Shaped(shape, values[0]), FillInOrder(dialect, sql[length..], values[1..]))
        else None
      case Bad => None
  }

  /** Psycopg 3: %s, %b and %t take the next value, %% is a percent sign, and any other use of % is an error. */
  function Psycopg(text: string): Directive {
    if |text| < 2 then Bad
    else if text[1] == '%' then Percent(2)
    else if text[1] in "sbt" then Conversion(2, [None])
    else Bad
  }

  lemma PsycopgIsFormatStyle()
    ensures IsFormatStyle(Psycopg)
  {
    assert Some('%') !in [None];
  }

  function Then<T>(first: seq<T>, rest: Option<seq<T>>): Option<seq<T>> {
    match rest
    case None => None
    case Some(items) => Some(first + items)
  }

  datatype Query<V> = Query(sql: string, parameters: seq<V>)

  /** The query the adaptation returns: where it found no placeholder, with the parameters as they came. */
  function AdaptedQuery<V>(parts: seq<Part>, parameters: seq<V>): Query<V>
    requires InRange(parts, |parameters|)
  {
    var ordered := Ordered(parts, parameters);
    Query(Adapted(parts), if ordered != [] then ordered else parameters)
  }

  function Verbatim<V>(sql: string): seq<Item<V>> {
    seq(|sql|, i requires 0 <= i < |sql| => Text(sql[i]))
  }

  /** What is executed: without parameters the driver gets the text alone, and does not look at its percent signs. */
  function Executed<V>(dialect: Dialect, query: Query<V>): Option<seq<Item<V>>> {
    if query.parameters == [] then Some(Verbatim(query.sql)) else FillInOrder(dialect, query.sql, query.parameters)
  }

  /** What the part at an index is replaced by, the value it takes, and where the next part starts. */
  method ReplacePart<V>(sql: string, index: nat, parameters: seq<V>)
    returns (piece: string, value: seq<V>, stop: Option<nat>)
    requires index < |sql|
    ensures stop.None? <==> PartAt(sql, index).Slot? && PartAt(sql, index).number > |parameters|
    ensures stop.Some? ==>
              && stop.value == PartEnd(sql, index) && piece == AdaptedPart(PartAt(sql, index))
              && (PartAt(sql, index).Slot? ==> 0 < PartAt(sql, index).number <= |parameters|)
              && value == OrderedPart(PartAt(sql, index), parameters)
  {
    PartIsSpelt(sql, index);
    if !StartsSlot(sql, index) {
      return [sql[index]], [], Some(index + 1);
    }
    var end := DigitsEnd(sql, index + 1);
    var number := Number(sql[index + 1..end]);
    if number - 1 < 0 || number - 1 >= |parameters| {
      return "", [], None;
    }
    return "%s", [parameters[number - 1]], Some(end);
  }

  /** None stands for the ValueError of an index out of range. */
  method AdaptQueryParameters<V>(source: SourceType, sql: string, parameters: seq<V>) returns (query: Option<Query<V>>)
    ensures source !in {PostgreSQL, SQLServer} ==> query == Some(Query(sql, parameters))
    ensures source in {PostgreSQL, SQLServer} ==> (query.Some? <==> InRange(Parse(sql, 0), |parameters|))
    ensures source in {PostgreSQL, SQLServer} && query.Some? ==> query.value == AdaptedQuery(Parse(sql, 0), parameters)
  {
    if source != PostgreSQL && source != SQLServer {
      return Some(Query(sql, parameters));
    }
    var adapted: string, ordered: seq<V>, index := "", [], 0;
    ghost var parts, done, rest := Parse(sql, 0), [], Parse(sql, 0);
    while index < |sql|
      invariant index <= |sql| && rest == Parse(sql, index) && parts == done + rest
      invariant InRange(done, |parameters|)
      invariant adapted == Adapted(done) && ordered == Ordered(done, parameters)
    {
      ghost var part, next := PartAt(sql, index), Parse(sql, PartEnd(sql, index));
      OneMorePart(sql, index, parts, done, rest, next);
      var piece, value, stop := ReplacePart(sql, index, parameters);
      if stop.None? {
        return None;
      }
      PartIsAdapted(done, part, parameters);
      adapted, ordered, index := adapted + piece, ordered + value, stop.value;
      done, rest := done + [part], next;
    }
    assert done == parts;
    query := Some(Query(adapted, if ordered != [] then ordered else parameters));
  }

  lemma OneMorePart(sql: string, index: nat, parts: seq<Part>, done: seq<Part>, rest: seq<Part>, next: seq<Part>)
    requires index < |sql| && rest == Parse(sql, index) && next == Parse(sql, PartEnd(sql, index))
    requires parts == done + rest
    ensures parts == done + [PartAt(sql, index)] + next
    ensures |done| < |parts| && parts[|done|] == PartAt(sql, index)
    ensures PartAt(sql, index).Slot? ==> PartAt(sql, index).number > 0
  {
    PartIsSpelt(sql, index);
  }

  lemma {:induction false} PartIsAdapted<V>(done: seq<Part>, part: Part, parameters: seq<V>)
    requires InRange(done, |parameters|) && (part.Slot? ==> 0 < part.number <= |parameters|)
    ensures InRange(done + [part], |parameters|)
    ensures Adapted(done + [part]) == Adapted(done) + AdaptedPart(part)
    ensures Ordered(done + [part], parameters) == Ordered(done, parameters) + OrderedPart(part, parameters)
  {
    if done == [] {
      assert done + [part] == [part] && [part][1..] == [];
    } else {
      TailInRange(done, |parameters|);
      PartIsAdapted(done[1..], part, parameters);
      assert (done + [part])[1..] == done[1..] + [part];
    }
  }

  // ---- Filling -------------------------------------------------------------------------------------------------

  function Slots(parts: seq<Part>): nat {
    if parts == [] then 0 else (if parts[0].Slot? then 1 else 0) + Slots(parts[1..])
  }

  function Percents(sql: string): nat {
    if sql == "" then 0 else (if sql[0] == '%' then 1 else 0) + Percents(sql[1..])
  }

  /** The text and its list of values have as many places as the original has placeholders. */
  lemma {:induction false} CountsMatch<V>(parts: seq<Part>, parameters: seq<V>)
    requires InRange(parts, |parameters|)
    ensures |Ordered(parts, parameters)| == Slots(parts)
    ensures |Adapted(parts)| == |parts| + Slots(parts)
    decreases |parts|
  {
    if parts != [] {
      TailInRange(parts, |parameters|);
      CountsMatch(parts[1..], parameters);
    }
  }

  lemma FillStepwise<V>(parts: seq<Part>, parameters: seq<V>)
    requires InRange(parts, |parameters|) && parts != []
    ensures InRange(parts[1..], |parameters|)
    ensures FillByIndex(parts, parameters)
         == [match parts[0] case Char(c) => Text(c) case Slot(number) => Value(parameters[number - 1])]
            + FillByIndex(parts[1..], parameters)
  {
    TailInRange(parts, |parameters|);
  }

  predicate NoPercent(parts: seq<Part>) {
    forall i | 0 <= i < |parts| :: parts[i] != Char('%')
  }

  /** Without a percent sign of its own, the adapted statement fills to what the compiler meant. */
  lemma {:induction false} FillsAlike<V>(dialect: Dialect, parts: seq<Part>, parameters: seq<V>)
    requires IsFormatStyle(dialect) && InRange(parts, |parameters|) && NoPercent(parts)
    ensures FillInOrder(dialect, Adapted(parts), Ordered(parts, parameters)) == Some(FillByIndex(parts, parameters))
    decreases |parts|
  {
    if parts != [] {
      FillStepwise(parts, parameters);
      assert forall i | 0 <= i < |parts| - 1 :: parts[1..][i] == parts[i + 1];
      FillsAlike(dialect, parts[1..], parameters);
      var text, values := Adapted(parts), Ordered(parts, parameters);
      assert text == AdaptedPart(parts[0]) + Adapted(parts[1..]);
      if parts[0].Slot? {
        assert dialect(text) == Conversion(2, [None]);
        assert text[2..] == Adapted(parts[1..]) && values[1..] == Ordered(parts[1..], parameters);
        assert Shaped([None], values[0]) == [Value(values[0])];
      } else {
        assert text[1..] == Adapted(parts[1..]) && values == Ordered(parts[1..], parameters);
      }
    }
  }

  function PercentItems<V>(items: seq<Item<V>>): nat {
    if items == [] then 0 else (if items[0] == Text('%') then 1 else 0) + PercentItems(items[1..])
  }

  lemma {:induction false} PercentItemsOfBoth<V>(left: seq<Item<V>>, right: seq<Item<V>>)
    ensures PercentItems(left + right) == PercentItems(left) + PercentItems(right)
  {
    if left == [] {
      assert left + right == right;
    } else {
      assert (left + right)[1..] == left[1..] + right;
      PercentItemsOfBoth(left[1..], right);
    }
  }

  lemma {:induction false} NoPercentItems<V>(items: seq<Item<V>>)
    requires Text('%') !in items
    ensures PercentItems(items) == 0
  {
    if items != [] {
      NoPercentItems(items[1..]);
    }
  }

  lemma ShapedHasNoPercent<V>(shape: seq<Option<char>>, value: V)
    requires Some('%') !in shape
    ensures PercentItems(Shaped(shape, value)) == 0
  {
    var items := Shaped(shape, value);
    forall i | 0 <= i < |items| ensures items[i] != Text('%') {
      assert shape[i] in shape;
    }
    NoPercentItems(items);
  }

  lemma {:induction false} PercentsOfBoth(left: string, right: string)
    ensures Percents(left + right) == Percents(left) + Percents(right)
  {
    if left == "" {
      assert left + right == right;
    } else {
      assert (left + right)[1..] == left[1..] + right;
      PercentsOfBoth(left[1..], right);
    }
  }

  lemma PercentsOfDirective(sql: string, length: nat)
    requires 2 <= length <= |sql| && sql[0] == '%'
    ensures Percents(sql) >= Percents(sql[length..]) + (if sql[length - 1] == '%' then 2 else 1)
  {
    var middle, last := sql[1..length - 1], [sql[length - 1]];
    assert sql[1..] == middle + (last + sql[length..]);
    PercentsOfBoth(middle, last + sql[length..]);
    PercentsOfBoth(last, sql[length..]);
    assert last[1..] == "";
  }

  /** Every percent sign in the result costs two of the text, and every value taken costs one. */
  lemma {:induction false} PercentsArePaid<V>(dialect: Dialect, sql: string, values: seq<V>)
    requires IsFormatStyle(dialect) && FillInOrder(dialect, sql, values).Some?
    ensures 2 * PercentItems(FillInOrder(dialect, sql, values).value) + |values| <= Percents(sql)
    decreases |sql|
  {
    if sql != "" {
      if sql[0] != '%' {
        PercentsArePaid(dialect, sql[1..], values);
        PercentItemsOfBoth([Text(sql[0])], FillInOrder(dialect, sql[1..], values).value);
        NoPercentItems<V>([Text(sql[0])]);
      } else {
        DirectiveIsPaid(dialect, sql, values);
      }
    }
  }

  lemma {:induction false} DirectiveIsPaid<V>(dialect: Dialect, sql: string, values: seq<V>)
    requires IsFormatStyle(dialect) && FillInOrder(dialect, sql, values).Some? && sql != "" && sql[0] == '%'
    ensures 2 * PercentItems(FillInOrder(dialect, sql, values).value) + |values| <= Percents(sql)
    decreases |sql|, 0
  {
    match dialect(sql)
    case Percent(length) =>
      PercentsArePaid(dialect, sql[length..], values);
      PercentsOfDirective(sql, length);
      PercentItemsOfBoth([Text('%')], FillInOrder(dialect, sql[length..], values).value);
      assert PercentItems<V>([Text('%')]) == 1 + PercentItems<V>([]);
    case Conversion(length, shape) =>
      PercentsArePaid(dialect, sql[length..], values[1..]);
      PercentsOfDirective(sql, length);
      PercentItemsOfBoth(Shaped(shape, values[0]), FillInOrder(dialect, sql[length..], values[1..]).value);
      ShapedHasNoPercent(shape, values[0]);
  }

  /** By index, every percent sign of the text stays; rewriting adds one for each placeholder. */
  lemma {:induction false} PercentsOfAdapted<V>(parts: seq<Part>, parameters: seq<V>)
    requires InRange(parts, |parameters|)
    ensures Percents(Adapted(parts)) == PercentItems(FillByIndex(parts, parameters)) + Slots(parts)
    ensures NoPercent(parts) <==> PercentItems(FillByIndex(parts, parameters)) == 0
    decreases |parts|
  {
    if parts != [] {
      FillStepwise(parts, parameters);
      PercentsOfAdapted(parts[1..], parameters);
      PercentsOfBoth(AdaptedPart(parts[0]), Adapted(parts[1..]));
      PercentsOfPart(parts[0]);
      assert FillByIndex(parts, parameters)[1..] == FillByIndex(parts[1..], parameters);
      assert forall i | 1 <= i < |parts| :: parts[i] == parts[1..][i - 1];
    }
  }

  lemma PercentsOfPart(part: Part)
    ensures Percents(AdaptedPart(part)) == (if part.Slot? || part == Char('%') then 1 else 0)
  {
    var text := AdaptedPart(part);
    if part.Slot? {
      assert text[1..] == "s" && text[1..][1..] == "";
      assert Percents("s") == 0;
    } else {
      assert text[1..] == "";
    }
  }

  lemma {:induction false} WithoutSlotsNothingChanges<V>(parts: seq<Part>, parameters: seq<V>)
    requires InRange(parts, |parameters|) && Slots(parts) == 0
    ensures Verbatim(Adapted(parts)) == FillByIndex(parts, parameters)
    decreases |parts|
  {
    if parts != [] {
      FillStepwise(parts, parameters);
      WithoutSlotsNothingChanges(parts[1..], parameters);
      var text := Adapted(parts);
      assert text == [parts[0].c] + Adapted(parts[1..]);
      assert Verbatim<V>(text) == [Text(parts[0].c)] + Verbatim<V>(Adapted(parts[1..]));
    }
  }

  lemma {:induction false} WithoutParametersNoSlots(parts: seq<Part>)
    requires InRange(parts, 0)
    ensures Slots(parts) == 0
  {
    if parts != [] {
      TailInRange(parts, 0);
      WithoutParametersNoSlots(parts[1..]);
    }
  }

  /**
   * What is executed after the rewriting is what the compiler meant, with each placeholder standing for the parameter
   * it numbers, exactly when there are no parameters, or some placeholder and no percent sign.
   */
  lemma RewritingIsFaithfulExactly<V>(dialect: Dialect, sql: string, parameters: seq<V>)
    requires IsFormatStyle(dialect) && InRange(Parse(sql, 0), |parameters|)
    ensures var parts := Parse(sql, 0);
            Executed(dialect, AdaptedQuery(parts, parameters)) == Some(FillByIndex(parts, parameters))
            <==> parameters == [] || ('%' !in sql && Slots(parts) > 0)
  {
    var parts := Parse(sql, 0);
    var query := AdaptedQuery(parts, parameters);
    CountsMatch(parts, parameters);
    if parameters == [] {
      WithoutParametersNoSlots(parts);
      WithoutSlotsNothingChanges(parts, parameters);
    } else {
      PercentsAreParts(sql, 0);
      assert sql[0..] == sql;
      PercentsOfAdapted(parts, parameters);
      if NoPercent(parts) && Slots(parts) > 0 {
        FillsAlike(dialect, parts, parameters);
      }
      if Executed(dialect, query) == Some(FillByIndex(parts, parameters)) {
        PercentsArePaid(dialect, query.sql, query.parameters);
      }
    }
  }

  lemma WitnessParses()
    ensures Parse("$1%", 0) == [Slot(1), Char('%')]
  {
    var sql := "$1%";
    assert DigitsEnd(sql, 2) == 2;
    assert sql[1..2] == "1" && "1"[..0] == "";
    assert PartAt(sql, 0) == Slot(1);
    assert Parse(sql, 2) == [Char('%')] + Parse(sql, 3);
  }

  lemma WitnessIsAdapted(parts: seq<Part>)
    requires parts == [Slot(1), Char('%')]
    ensures InRange(parts, 1) && AdaptedQuery(parts, [7]) == Query("%s%", [7])
  {
    assert parts[1..] == [Char('%')] && parts[1..][1..] == [];
    assert Adapted(parts[1..]) == "%";
    assert Ordered(parts[1..], [7]) == [];
  }

  /** A percent sign beside a placeholder: the driver refuses the statement. */
  lemma PercentBesidePlaceholderFails()
    ensures InRange(Parse("$1%", 0), 1)
    ensures Executed(Psycopg, AdaptedQuery(Parse("$1%", 0), [7])) == None
  {
    WitnessParses();
    WitnessIsAdapted(Parse("$1%", 0));
    var text := "%s%";
    assert text[2..] == "%" && Psycopg(text) == Conversion(2, [None]);
    assert FillInOrder<int>(Psycopg, "%", []) == None;
  }

  /** Parameters that no placeholder names: they are passed all the same, and the driver refuses them. */
  lemma UnnamedParametersFail()
    ensures InRange(Parse("A", 0), 1) && '%' !in "A"
    ensures AdaptedQuery(Parse("A", 0), [7]) == Query("A", [7])
    ensures forall dialect: Dialect :: Executed(dialect, Query("A", [7])) == None
  {
    assert Parse("A", 0) == [Char('A')] + Parse("A", 1);
    assert [Char('A')][1..] == [];
    assert Adapted([Char('A')]) == "A" + Adapted([]);
    assert "A"[1..] == "";
  }

  /** A percent sign in a statement without parameters does no harm. */
  lemma PercentAloneIsKept<V>(dialect: Dialect)
    ensures AdaptedQuery<V>(Parse("%", 0), []) == Query("%", [])
    ensures Executed<V>(dialect, Query("%", [])) == Some([Text('%')])
  {
    assert Parse("%", 0) == [Char('%')] + Parse("%", 1);
    assert [Char('%')][1..] == [];
    assert Adapted([Char('%')]) == "%" + Adapted([]);
    assert Verbatim<V>("%") == [Text('%')];
  }

  lemma {:induction false} PercentsAreParts(sql: string, index: nat)
    requires index <= |sql|
    ensures NoPercent(Parse(sql, index)) <==> '%' !in sql[index..]
    decreases |sql| - index
  {
    if index < |sql| {
      var parts, end := Parse(sql, index), PartEnd(sql, index);
      PercentsAreParts(sql, end);
      assert sql[index..] == sql[index..end] + sql[end..];
      assert '%' in sql[index..end] <==> parts[0] == Char('%');
      assert parts[1..] == Parse(sql, end);
      assert forall i | 0 <= i < |parts| - 1 :: parts[1..][i] == parts[i + 1];
      assert forall i | 1 <= i < |parts| :: parts[i] == parts[1..][i - 1];
    }
  }
}
