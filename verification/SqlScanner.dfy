/** The two scanners that read SQL text outside its quoted regions. */
module SqlScanner {
  import opened Prelude

  /** The character tables of the language runtime. */
  datatype Chars = Chars(alphanumeric: char -> bool, space: char -> bool, upper: string -> string) {
    ghost predicate Valid() {
      forall c | IsQuote(c) :: !space(c)
    }

    predicate Word(c: char) {
      alphanumeric(c) || c == '_' || c == '$'
    }
  }

  predicate IsQuote(c: char) {
    c == '\'' || c == '"' || c == '`'
  }

  // ---- The structure of a text ------------------------------------------------------------------------------

  datatype Piece = Plain(c: char) | Quoted(quote: char, body: string)

  /** A body that does not end its own quoted region: quotes are doubled, a backslash takes its successor along. */
  predicate IsBody(quote: char, body: string) {
    body == "" ||
    if body[0] == quote then |body| > 1 && body[1] == quote && IsBody(quote, body[2..])
    else if body[0] == '\\' then |body| > 1 && IsBody(quote, body[2..])
    else IsBody(quote, body[1..])
  }

  /** A quoted region is not followed by one with the same quote: that would be a doubled quote inside one region. */
  predicate WellFormed(pieces: seq<Piece>) {
    pieces == [] || (WellFormedPiece(pieces[0]) && Separate(pieces) && WellFormed(pieces[1..]))
  }

  predicate WellFormedPiece(piece: Piece) {
    match piece
    case Plain(c) => !IsQuote(c)
    case Quoted(quote, body) => IsQuote(quote) && IsBody(quote, body)
  }

  predicate Separate(pieces: seq<Piece>) {
    |pieces| > 1 && pieces[0].Quoted? && pieces[1].Quoted? ==> pieces[0].quote != pieces[1].quote
  }

  /** Where the quoted region that is open at index ends: the index after its closing quote. */
  function QuoteEnd(sql: string, index: nat, quote: char): (end: Option<nat>)
    requires index <= |sql|
    ensures end.Some? ==> index < end.value <= |sql|
    decreases |sql| - index
  {
    if index == |sql| then None
    else if sql[index] == quote then
      if index + 1 < |sql| && sql[index + 1] == quote then QuoteEnd(sql, index + 2, quote) else Some(index + 1)
    else if sql[index] == '\\' && index + 1 < |sql| then QuoteEnd(sql, index + 2, quote)
    else QuoteEnd(sql, index + 1, quote)
  }

  /** The pieces of the text from index on, outside a quoted region; none when a region never ends. */
  function Outside(sql: string, index: nat): Option<seq<Piece>>
    requires index <= |sql|
    decreases |sql| - index
  {
    if index == |sql| then Some([])
    else if IsQuote(sql[index]) then
      match QuoteEnd(sql, index + 1, sql[index])
      case None => None
      case Some(end) => Preceded(Quoted(sql[index], sql[index + 1..end - 1]), Outside(sql, end))
    else Preceded(Plain(sql[index]), Outside(sql, index + 1))
  }

  function Preceded(piece: Piece, rest: Option<seq<Piece>>): Option<seq<Piece>> {
    match rest
    case None => None
    case Some(pieces) => Some([piece] + pieces)
  }

  lemma {:induction false} QuotedRegion(sql: string, index: nat, quote: char)
    requires index <= |sql| && quote != '\\'
    requires QuoteEnd(sql, index, quote).Some?
    ensures var end := QuoteEnd(sql, index, quote).value;
            && sql[end - 1] == quote && (end < |sql| ==> sql[end] != quote)
            && IsBody(quote, sql[index..end - 1])
    decreases |sql| - index
  {
    var end := QuoteEnd(sql, index, quote).value;
    if sql[index] == quote {
      if index + 1 < |sql| && sql[index + 1] == quote {
        QuotedRegion(sql, index + 2, quote);
        assert sql[index..end - 1][2..] == sql[index + 2..end - 1];
      }
    } else if sql[index] == '\\' && index + 1 < |sql| {
      QuotedRegion(sql, index + 2, quote);
      assert sql[index..end - 1][2..] == sql[index + 2..end - 1];
    } else {
      QuotedRegion(sql, index + 1, quote);
      assert sql[index..end - 1][1..] == sql[index + 1..end - 1];
    }
  }

  function Width(piece: Piece): nat {
    if piece.Plain? then 1 else |piece.body| + 2
  }

  predicate PieceAt(sql: string, index: nat, piece: Piece) {
    index + Width(piece) <= |sql|
    && match piece
       case Plain(c) => sql[index] == c
       case Quoted(quote, body) =>
         sql[index] == quote && sql[index + 1..index + 1 + |body|] == body && sql[index + 1 + |body|] == quote
  }

  /** The text from index on is the pieces, one after the other. */
  ghost predicate Spells(sql: string, index: nat, pieces: seq<Piece>)
    requires index <= |sql|
    decreases |pieces|
  {
    if pieces == [] then index == |sql|
    else PieceAt(sql, index, pieces[0]) && Spells(sql, index + Width(pieces[0]), pieces[1..])
  }

  lemma FirstCharacter(sql: string, index: nat, pieces: seq<Piece>)
    requires index <= |sql| && pieces != [] && Spells(sql, index, pieces)
    ensures index < |sql| && sql[index] == (if pieces[0].Plain? then pieces[0].c else pieces[0].quote)
  {
  }

  /** A quoted region as QuoteEnd finds it is one piece. */
  lemma RegionIsAPiece(sql: string, index: nat, end: nat)
    requires index < |sql| && IsQuote(sql[index]) && QuoteEnd(sql, index + 1, sql[index]) == Some(end)
    ensures var piece := Quoted(sql[index], sql[index + 1..end - 1]);
            WellFormedPiece(piece) && PieceAt(sql, index, piece) && index + Width(piece) == end
    ensures end < |sql| ==> sql[end] != sql[index]
  {
    QuotedRegion(sql, index + 1, sql[index]);
  }

  lemma Joined(piece: Piece, rest: seq<Piece>)
    requires WellFormedPiece(piece) && WellFormed(rest)
    requires rest != [] && piece.Quoted? && rest[0].Quoted? ==> piece.quote != rest[0].quote
    ensures WellFormed([piece] + rest) && ([piece] + rest)[1..] == rest
  {
    assert ([piece] + rest)[1..] == rest;
  }

  /** The pieces found are well formed and spell the text. */
  lemma {:induction false} PiecesSpellTheText(sql: string, index: nat)
    requires index <= |sql| && Outside(sql, index).Some?
    ensures WellFormed(Outside(sql, index).value) && Spells(sql, index, Outside(sql, index).value)
    decreases |sql| - index
  {
    if index < |sql| {
      var quoted := IsQuote(sql[index]);
      var end := if quoted then QuoteEnd(sql, index + 1, sql[index]).value else index + 1;
      var piece := if quoted then Quoted(sql[index], sql[index + 1..end - 1]) else Plain(sql[index]);
      PiecesSpellTheText(sql, end);
      var rest := Outside(sql, end).value;
      if quoted {
        RegionIsAPiece(sql, index, end);
      }
      if rest != [] {
        FirstCharacter(sql, end, rest);
      }
      Joined(piece, rest);
      assert Outside(sql, index).value == [piece] + rest;
    }
  }

  lemma {:induction false} BodyEnds(sql: string, index: nat, quote: char, body: string)
    requires quote != '\\' && IsBody(quote, body)
    requires index + |body| < |sql| && sql[index..index + |body|] == body && sql[index + |body|] == quote
    requires index + |body| + 1 < |sql| ==> sql[index + |body| + 1] != quote
    ensures QuoteEnd(sql, index, quote) == Some(index + |body| + 1)
    decreases |body|
  {
    if body != "" {
      assert sql[index] == body[0];
      var step := if body[0] == quote || body[0] == '\\' then 2 else 1;
      if step == 2 {
        assert sql[index + 1] == body[1];
      }
      assert sql[index + step..index + |body|] == body[step..];
      BodyEnds(sql, index + step, quote, body[step..]);
    }
  }

  lemma PieceIsFound(sql: string, index: nat, pieces: seq<Piece>)
    requires index <= |sql| && pieces != [] && WellFormed(pieces) && Spells(sql, index, pieces)
    requires Outside(sql, index + Width(pieces[0])) == Some(pieces[1..])
    ensures Outside(sql, index) == Some(pieces)
  {
    assert pieces == [pieces[0]] + pieces[1..];
    if pieces[0].Quoted? {
      if pieces[1..] != [] {
        FirstCharacter(sql, index + Width(pieces[0]), pieces[1..]);
      }
      BodyEnds(sql, index + 1, pieces[0].quote, pieces[0].body);
    }
  }

  /** Every well-formed structure is found again in the text it spells, so a text has at most one structure. */
  lemma {:induction false} TextHasThesePieces(sql: string, index: nat, pieces: seq<Piece>)
    requires index <= |sql| && WellFormed(pieces) && Spells(sql, index, pieces)
    ensures Outside(sql, index) == Some(pieces)
    decreases |pieces|
  {
    if pieces != [] {
      TextHasThesePieces(sql, index + Width(pieces[0]), pieces[1..]);
      PieceIsFound(sql, index, pieces);
    }
  }

  // ---- Tokens ---------------------------------------------------------------------------------------------------

  /** A token and the pieces that follow it. */
  datatype Token = Token(text: string, after: seq<Piece>)

  predicate WordPiece(chars: Chars, piece: Piece) {
    piece.Plain? && chars.Word(piece.c)
  }

  /** The tokens of the pieces, current being the part of the first one already read. */
  function Tokens(chars: Chars, pieces: seq<Piece>, current: string): seq<Token> {
    if pieces == [] then Pending(current, pieces)
    else if WordPiece(chars, pieces[0]) then Tokens(chars, pieces[1..], current + [pieces[0].c])
    else Pending(current, pieces) + Tokens(chars, pieces[1..], "")
  }

  function Pending(current: string, after: seq<Piece>): seq<Token> {
    if current == "" then [] else [Token(current, after)]
  }

  function Plains(text: string): seq<Piece> {
    seq(|text|, i requires 0 <= i < |text| => Plain(text[i]))
  }

  /** A maximal run of word characters outside quotes. */
  ghost predicate MaximalRun(chars: Chars, pieces: seq<Piece>, before: seq<Piece>, token: Token) {
    && pieces == before + Plains(token.text) + token.after
    && token.text != "" && (forall i | 0 <= i < |token.text| :: chars.Word(token.text[i]))
    && (before != [] ==> !WordPiece(chars, before[|before| - 1]))
    && (token.after != [] ==> !WordPiece(chars, token.after[0]))
  }

  predicate AllWord(chars: Chars, text: string) {
    forall i | 0 <= i < |text| :: chars.Word(text[i])
  }

  lemma PlainsGrow(current: string, pieces: seq<Piece>)
    requires pieces != [] && pieces[0].Plain?
    ensures Plains(current) + pieces == Plains(current + [pieces[0].c]) + pieces[1..]
  {
  }

  /** Every token is a maximal run of word characters outside quotes. */
  lemma {:induction false} TokenIsRun(chars: Chars, pieces: seq<Piece>, current: string, token: Token)
    returns (before: seq<Piece>)
    requires AllWord(chars, current) && token in Tokens(chars, pieces, current)
    ensures MaximalRun(chars, Plains(current) + pieces, before, token)
    decreases |pieces|
  {
    if pieces != [] && WordPiece(chars, pieces[0]) {
      PlainsGrow(current, pieces);
      before := TokenIsRun(chars, pieces[1..], current + [pieces[0].c], token);
    } else if token in Pending(current, pieces) {
      before := [];
      assert [] + Plains(current) + pieces == Plains(current) + pieces;
    } else {
      var inner := TokenIsRun(chars, pieces[1..], "", token);
      assert Plains("") + pieces[1..] == pieces[1..];
      before := Plains(current) + [pieces[0]] + inner;
      assert pieces == [pieces[0]] + pieces[1..];
      RunFurtherOn(chars, Plains(current), pieces[0], pieces[1..], inner, token);
    }
  }

  lemma RunFurtherOn(
    chars: Chars, lead: seq<Piece>, separator: Piece, rest: seq<Piece>, inner: seq<Piece>, token: Token)
    requires MaximalRun(chars, rest, inner, token) && !WordPiece(chars, separator)
    ensures MaximalRun(chars, lead + ([separator] + rest), lead + [separator] + inner, token)
  {
    var before := lead + [separator] + inner;
    assert before + Plains(token.text) + token.after
        == lead + ([separator] + (inner + Plains(token.text) + token.after));
    assert inner == [] ==> before[|before| - 1] == separator;
    assert inner != [] ==> before[|before| - 1] == inner[|inner| - 1];
  }

  /** And every maximal run is a token. */
  lemma {:induction false} RunIsToken(
    chars: Chars, pieces: seq<Piece>, current: string, before: seq<Piece>, token: Token)
    requires AllWord(chars, current) && MaximalRun(chars, Plains(current) + pieces, before, token)
    ensures token in Tokens(chars, pieces, current)
    decreases |pieces|
  {
    var whole := Plains(current) + pieces;
    if pieces != [] && WordPiece(chars, pieces[0]) {
      PlainsGrow(current, pieces);
      RunIsToken(chars, pieces[1..], current + [pieces[0].c], before, token);
    } else if |before| <= |current| {
      RunAtStart(chars, pieces, current, before, token);
    } else {
      var inner := before[|current| + 1..];
      assert whole[|current| + 1..] == pieces[1..];
      assert before == whole[..|before|];
      assert whole[|current| + 1..] == inner + Plains(token.text) + token.after;
      assert inner != [] ==> inner[|inner| - 1] == before[|before| - 1];
      assert Plains("") + pieces[1..] == pieces[1..];
      RunIsToken(chars, pieces[1..], "", inner, token);
    }
  }

  lemma RunStartsFirst(chars: Chars, pieces: seq<Piece>, current: string, before: seq<Piece>, token: Token)
    requires AllWord(chars, current) && MaximalRun(chars, Plains(current) + pieces, before, token)
    requires |before| <= |current|
    ensures before == []
  {
    assert before == (Plains(current) + pieces)[..|before|] == Plains(current[..|before|]);
  }

  lemma RunAtStart(chars: Chars, pieces: seq<Piece>, current: string, before: seq<Piece>, token: Token)
    requires AllWord(chars, current) && MaximalRun(chars, Plains(current) + pieces, before, token)
    requires pieces != [] ==> !WordPiece(chars, pieces[0])
    requires |before| <= |current|
    ensures token in Pending(current, pieces)
  {
    RunStartsFirst(chars, pieces, current, before, token);
    var whole, n := Plains(current) + pieces, |token.text|;
    assert whole == Plains(token.text) + token.after;
    assert forall i | 0 <= i < |current| :: whole[i] == Plain(current[i]);
    assert forall i | 0 <= i < n :: whole[i] == Plain(token.text[i]);
    assert token.after != [] ==> whole[n] == token.after[0];
    assert pieces != [] ==> whole[|current|] == pieces[0];
    assert n == |current|;
    assert token.text == current;
    assert token.after == whole[n..];
    assert pieces == whole[n..];
  }

  /** Tokens come in the order of the text: ever less of it is left. */
  lemma {:induction false} TokensAreInOrder(chars: Chars, pieces: seq<Piece>, current: string, i: nat, j: nat)
    requires i < j < |Tokens(chars, pieces, current)|
    ensures var tokens := Tokens(chars, pieces, current);
            |tokens[j].after| < |tokens[i].after| <= |pieces|
    decreases |pieces|
  {
    if WordPiece(chars, pieces[0]) {
      TokensAreInOrder(chars, pieces[1..], current + [pieces[0].c], i, j);
    } else {
      var pending := |Pending(current, pieces)|;
      if i >= pending {
        TokensAreInOrder(chars, pieces[1..], "", i - pending, j - pending);
      } else {
        TokenIsShorter(chars, pieces[1..], "", j - pending);
      }
    }
  }

  lemma {:induction false} TokenIsShorter(chars: Chars, pieces: seq<Piece>, current: string, i: nat)
    requires i < |Tokens(chars, pieces, current)|
    ensures |Tokens(chars, pieces, current)[i].after| <= |pieces|
    decreases |pieces|
  {
    if pieces != [] && WordPiece(chars, pieces[0]) {
      TokenIsShorter(chars, pieces[1..], current + [pieces[0].c], i);
    } else if i >= |Pending(current, pieces)| {
      TokenIsShorter(chars, pieces[1..], "", i - |Pending(current, pieces)|);
    }
  }

  // ---- The scanners ------------------------------------------------------------------------------------------------

  /** The pieces still ahead of a scanner at index, which may be inside a quoted region. */
  function Remaining(sql: string, index: nat, quote: Option<char>): Option<seq<Piece>>
    requires index <= |sql|
  {
    match quote
    case None => Outside(sql, index)
    case Some(q) =>
      match QuoteEnd(sql, index, q)
      case None => None
      case Some(end) => Outside(sql, end)
  }

  function Upper(chars: Chars, tokens: seq<Token>): (texts: seq<string>)
    ensures |texts| == |tokens|
  {
    seq(|tokens|, i requires 0 <= i < |tokens| => chars.upper(tokens[i].text))
  }

  lemma UpperOfBoth(chars: Chars, left: seq<Token>, right: seq<Token>)
    ensures Upper(chars, left + right) == Upper(chars, left) + Upper(chars, right)
  {
  }

  /** The upper-cased tokens ahead of a scanner, with current already read. */
  function Ahead(chars: Chars, rest: Option<seq<Piece>>, current: string): Option<seq<string>> {
    match rest
    case None => None
    case Some(pieces) => Some(Upper(chars, Tokens(chars, pieces, current)))
  }

  ghost predicate Continues(done: seq<string>, ahead: Option<seq<string>>, whole: Option<seq<string>>) {
    && (whole.None? <==> ahead.None?)
    && (whole.Some? && ahead.Some? ==> whole.value == done + ahead.value)
  }

  lemma ContinuesOn(
    done: seq<string>, pending: seq<string>, next: Option<seq<string>>, ahead: Option<seq<string>>,
    whole: Option<seq<string>>)
    requires Continues(done, ahead, whole) && Continues(pending, next, ahead)
    ensures Continues(done + pending, next, whole)
  {
    if whole.Some? {
      assert done + (pending + next.value) == done + pending + next.value;
    }
  }

  function Flushed(chars: Chars, current: string): seq<string> {
    if current == "" then [] else [chars.upper(current)]
  }

  lemma TextEnds(chars: Chars, sql: string, current: string)
    ensures Ahead(chars, Outside(sql, |sql|), current) == Some(Flushed(chars, current))
  {
    assert Upper(chars, Pending(current, [])) == Flushed(chars, current);
  }

  /** Where a scanner goes next inside a quoted region. */
  method SkipQuoted(sql: string, index: nat, quote: char) returns (next: nat, still: Option<char>)
    requires index < |sql|
    ensures index < next <= |sql| && still in {None, Some(quote)}
    ensures Remaining(sql, next, still) == Remaining(sql, index, Some(quote))
  {
    var c := sql[index];
    still := Some(quote);
    if c == quote {
      if index + 1 < |sql| && sql[index + 1] == quote {
        return index + 2, still;
      }
      still := None;
    } else if c == '\\' && index + 1 < |sql| {
      return index + 2, still;
    }
    next := index + 1;
  }

  lemma WordGoesOn(chars: Chars, sql: string, index: nat, current: string)
    requires index < |sql| && !IsQuote(sql[index]) && chars.Word(sql[index])
    ensures Ahead(chars, Outside(sql, index), current) == Ahead(chars, Outside(sql, index + 1), current + [sql[index]])
  {
  }

  lemma WordEnds(chars: Chars, sql: string, index: nat, current: string, after: Option<seq<Piece>>)
    requires index < |sql|
    requires after
              == (if IsQuote(sql[index]) then Remaining(sql, index + 1, Some(sql[index])) else Outside(sql, index + 1))
    requires IsQuote(sql[index]) || !chars.Word(sql[index])
    ensures Continues(Flushed(chars, current), Ahead(chars, after, ""), Ahead(chars, Outside(sql, index), current))
  {
    var pieces := Outside(sql, index);
    if pieces.Some? {
      assert after.Some? && pieces.value[1..] == after.value;
      UpperOfBoth(chars, Pending(current, pieces.value), Tokens(chars, after.value, ""));
    }
  }

  /** The upper-cased tokens outside quotes, or none for a quote that never ends. */
  method SqlTokens(chars: Chars, sql: string) returns (tokens: Option<seq<string>>)
    ensures tokens == Ahead(chars, Outside(sql, 0), "")
  {
    var found: seq<string>, current: string, quote, index := [], "", None, 0;
    ghost var whole := Ahead(chars, Outside(sql, 0), "");
    while index < |sql|
      invariant index <= |sql| && (quote.Some? ==> current == "")
      invariant Continues(found, Ahead(chars, Remaining(sql, index, quote), current), whole)
    {
      var c := sql[index];
      if quote.Some? {
        index, quote := SkipQuoted(sql, index, quote.value);
        continue;
      }
      if !IsQuote(c) && chars.Word(c) {
        WordGoesOn(chars, sql, index, current);
        current := current + [c];
      } else {
        quote := if IsQuote(c) then Some(c) else None;
        ghost var after := Remaining(sql, index + 1, quote);
        WordEnds(chars, sql, index, current, after);
        ContinuesOn(
          found, Flushed(chars, current), Ahead(chars, after, ""), Ahead(chars, Outside(sql, index), current), whole);
        if current != "" {
          found, current := found + [chars.upper(current)], "";
        }
      }
      index := index + 1;
    }
    if quote.Some? {
      return None;
    }
    TextEnds(chars, sql, current);
    assert found + [] == found;
    if current != "" {
      found := found + [chars.upper(current)];
    }
    tokens := Some(found);
  }

  /** The pieces open, after white space, with a parenthesis. */
  predicate Called(chars: Chars, after: seq<Piece>) {
    after != [] && after[0].Plain?
    && if chars.space(after[0].c) then Called(chars, after[1..]) else after[0].c == '('
  }

  ghost predicate OnlyCalls(chars: Chars, tokens: seq<Token>, keyword: string) {
    forall i | 0 <= i < |tokens| :: chars.upper(tokens[i].text) == keyword ==> Called(chars, tokens[i].after)
  }

  lemma OnlyCallsInBoth(chars: Chars, left: seq<Token>, right: seq<Token>, keyword: string)
    ensures OnlyCalls(chars, left + right, keyword) <==>
              OnlyCalls(chars, left, keyword) && OnlyCalls(chars, right, keyword)
  {
    assert forall i | 0 <= i < |left| :: left[i] == (left + right)[i];
    assert forall i | 0 <= i < |right| :: right[i] == (left + right)[|left| + i];
  }

  lemma PendingCalls(chars: Chars, current: string, after: seq<Piece>, keyword: string)
    ensures OnlyCalls(chars, Pending(current, after), keyword) <==>
              (current != "" && chars.upper(current) == keyword ==> Called(chars, after))
  {
    assert current != "" ==> Pending(current, after)[0] == Token(current, after);
  }

  lemma CalledStepwise(chars: Chars, sql: string, index: nat)
    requires chars.Valid() && index < |sql| && Outside(sql, index).Some?
    ensures chars.space(sql[index]) ==>
              Outside(sql, index + 1).Some?
              && Called(chars, Outside(sql, index).value) == Called(chars, Outside(sql, index + 1).value)
    ensures !chars.space(sql[index]) ==> Called(chars, Outside(sql, index).value) == (sql[index] == '(')
  {
    if !IsQuote(sql[index]) {
      assert Outside(sql, index).value[1..] == Outside(sql, index + 1).value;
    }
  }

  method LooksCalled(chars: Chars, sql: string, index: nat) returns (called: bool)
    requires chars.Valid() && index < |sql|
    ensures Outside(sql, index).Some? ==> called == Called(chars, Outside(sql, index).value)
  {
    var lookahead := index;
    while lookahead < |sql| && chars.space(sql[lookahead])
      invariant index <= lookahead <= |sql|
      invariant Outside(sql, index).Some? ==>
                  Outside(sql, lookahead).Some?
                  && Called(chars, Outside(sql, index).value) == Called(chars, Outside(sql, lookahead).value)
    {
      if Outside(sql, lookahead).Some? {
        CalledStepwise(chars, sql, lookahead);
      }
      lookahead := lookahead + 1;
    }
    if lookahead < |sql| && Outside(sql, lookahead).Some? {
      CalledStepwise(chars, sql, lookahead);
    }
    return lookahead < |sql| && sql[lookahead] == '(';
  }

  /** What a scanner at hand still has to find: that every occurrence ahead is called. */
  ghost predicate CallsAhead(chars: Chars, rest: Option<seq<Piece>>, current: string, keyword: string) {
    rest.Some? && OnlyCalls(chars, Tokens(chars, rest.value, current), keyword)
  }

  lemma CallsGoOn(chars: Chars, sql: string, index: nat, current: string, keyword: string)
    requires index < |sql| && !IsQuote(sql[index]) && chars.Word(sql[index])
    ensures CallsAhead(chars, Outside(sql, index), current, keyword)
         == CallsAhead(chars, Outside(sql, index + 1), current + [sql[index]], keyword)
  {
    var pieces := Outside(sql, index);
    if pieces.Some? {
      assert pieces.value[1..] == Outside(sql, index + 1).value;
    }
  }

  lemma CallsAfterWord(
    chars: Chars, sql: string, index: nat, current: string, after: Option<seq<Piece>>, keyword: string)
    requires index < |sql|
    requires after
              == (if IsQuote(sql[index]) then Remaining(sql, index + 1, Some(sql[index])) else Outside(sql, index + 1))
    requires IsQuote(sql[index]) || !chars.Word(sql[index])
    ensures after.Some? <==> Outside(sql, index).Some?
    ensures CallsAhead(chars, Outside(sql, index), current, keyword) <==>
              CallsAhead(chars, after, "", keyword)
              && (current != "" && chars.upper(current) == keyword ==> Called(chars, Outside(sql, index).value))
  {
    var pieces := Outside(sql, index);
    if pieces.Some? {
      assert pieces.value[1..] == after.value;
      PendingCalls(chars, current, pieces.value, keyword);
      OnlyCallsInBoth(chars, Pending(current, pieces.value), Tokens(chars, after.value, ""), keyword);
    }
  }

  lemma QuoteIsNoCall(chars: Chars, sql: string, index: nat)
    requires index < |sql| && IsQuote(sql[index]) && Outside(sql, index).Some?
    ensures !Called(chars, Outside(sql, index).value)
  {
  }

  /** On a text the token scanner accepts, tells whether every token equal to the keyword is called. */
  method KeywordOccurrencesAreFunctionCalls(chars: Chars, sql: string, keyword: string) returns (calls: bool)
    requires chars.Valid()
    ensures Outside(sql, 0).Some? ==>
              calls == OnlyCalls(chars, Tokens(chars, Outside(sql, 0).value, ""), chars.upper(keyword))
  {
    var current: string, quote, index := "", None, 0;
    var normalized := chars.upper(keyword);
    ghost var whole := CallsAhead(chars, Outside(sql, 0), "", normalized);
    while index < |sql|
      invariant index <= |sql| && (quote.Some? ==> current == "")
      invariant Outside(sql, 0).Some? ==> Remaining(sql, index, quote).Some?
      invariant Outside(sql, 0).Some? ==> whole == CallsAhead(chars, Remaining(sql, index, quote), current, normalized)
    {
      var c := sql[index];
      if quote.Some? {
        index, quote := SkipQuoted(sql, index, quote.value);
        continue;
      }
      if !IsQuote(c) && chars.Word(c) {
        CallsGoOn(chars, sql, index, current, normalized);
        current := current + [c];
      } else {
        quote := if IsQuote(c) then Some(c) else None;
        CallsAfterWord(chars, sql, index, current, Remaining(sql, index + 1, quote), normalized);
        if current != "" && chars.upper(current) == normalized {
          if IsQuote(c) {
            if Outside(sql, index).Some? {
              QuoteIsNoCall(chars, sql, index);
            }
            return false;
          }
          var called := LooksCalled(chars, sql, index);
          if !called {
            return false;
          }
        }
        current := "";
      }
      index := index + 1;
    }
    PendingCalls(chars, current, [], normalized);
    return current == "" || chars.upper(current) != normalized;
  }

  // ---- Quoted regions do not matter ---------------------------------------------------------------------------------

  /** The same text outside quotes, with a quoted region wherever the other has one. */
  ghost predicate SameOutside(left: seq<Piece>, right: seq<Piece>) {
    |left| == |right| && forall i | 0 <= i < |left| :: left[i] == right[i] || (left[i].Quoted? && right[i].Quoted?)
  }

  lemma {:induction false} SameCalls(chars: Chars, left: seq<Piece>, right: seq<Piece>)
    requires SameOutside(left, right)
    ensures Called(chars, left) == Called(chars, right)
  {
    if left != [] && left[0].Plain? {
      assert left[0] == right[0];
      SameCalls(chars, left[1..], right[1..]);
    }
  }

  lemma {:induction false} SameTokens(chars: Chars, left: seq<Piece>, right: seq<Piece>, current: string)
    requires SameOutside(left, right)
    ensures |Tokens(chars, left, current)| == |Tokens(chars, right, current)|
    ensures forall i | 0 <= i < |Tokens(chars, left, current)| ::
              Tokens(chars, left, current)[i].text == Tokens(chars, right, current)[i].text
              && Called(chars, Tokens(chars, left, current)[i].after)
                 == Called(chars, Tokens(chars, right, current)[i].after)
  {
    SameCalls(chars, left, right);
    if left != [] {
      assert left[0] == right[0] || (left[0].Quoted? && right[0].Quoted?);
      if WordPiece(chars, left[0]) {
        SameTokens(chars, left[1..], right[1..], current + [left[0].c]);
      } else {
        SameTokens(chars, left[1..], right[1..], "");
      }
    }
  }

  /** Texts that differ only inside their quoted regions get the same answer from both scanners. */
  lemma QuotedRegionsDoNotMatter(
    chars: Chars, sql: string, other: string, left: seq<Piece>, right: seq<Piece>, keyword: string)
    requires IsStructure(sql, left) && IsStructure(other, right) && SameOutside(left, right)
    ensures Ahead(chars, Outside(sql, 0), "") == Ahead(chars, Outside(other, 0), "")
    ensures Outside(sql, 0) == Some(left) && Outside(other, 0) == Some(right)
    ensures OnlyCalls(chars, Tokens(chars, left, ""), keyword) == OnlyCalls(chars, Tokens(chars, right, ""), keyword)
  {
    TextHasThesePieces(sql, 0, left);
    TextHasThesePieces(other, 0, right);
    SameTokens(chars, left, right, "");
    assert Upper(chars, Tokens(chars, left, "")) == Upper(chars, Tokens(chars, right, ""));
  }

  /** The token scanner accepts exactly the texts in which every quoted region ends. */
  lemma AcceptedTextsAreWellFormed(sql: string)
    ensures Outside(sql, 0).Some? <==> exists pieces :: IsStructure(sql, pieces)
  {
    if Outside(sql, 0).Some? {
      PiecesSpellTheText(sql, 0);
      assert IsStructure(sql, Outside(sql, 0).value);
    }
    forall pieces | IsStructure(sql, pieces) ensures Outside(sql, 0).Some? {
      TextHasThesePieces(sql, 0, pieces);
    }
  }

  ghost predicate IsStructure(sql: string, pieces: seq<Piece>) {
    WellFormed(pieces) && Spells(sql, 0, pieces)
  }
}
