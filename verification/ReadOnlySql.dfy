/** The check that lets only read-only statements through. */
module ReadOnlySql {
  import opened Prelude
  import opened SqlScanner
  import opened Trimming

  const FORBIDDEN: seq<string> := [
    "INSERT", "UPDATE", "DELETE", "MERGE", "UPSERT", "CREATE", "ALTER", "DROP", "TRUNCATE", "RENAME", "GRANT", "REVOKE",
    "CALL", "EXEC", "EXECUTE", "BEGIN", "COMMIT", "ROLLBACK", "SAVEPOINT", "LOCK", "UNLOCK", "OUTFILE", "DUMPFILE",
    "LOAD_FILE", "GET_LOCK", "RELEASE_LOCK", "SLEEP", "BENCHMARK"]

  predicate Contains(text: string, part: string) {
    |part| <= |text| && (text[..|part|] == part || (text != "" && Contains(text[1..], part)))
  }

  /** Marks of comments and further statements, which are refused even inside quotes. */
  predicate HasMarks(sql: string) {
    ';' in sql || Contains(sql, "--") || Contains(sql, "/*") || '#' in sql
  }

  /** What the tokens outside quotes must be: a query, no forbidden word, and REPLACE only as a function. */
  ghost predicate IsReadOnly(chars: Chars, pieces: seq<Piece>) {
    var tokens := Tokens(chars, pieces, "");
    && tokens != [] && (chars.upper(tokens[0].text) == "SELECT" || chars.upper(tokens[0].text) == "WITH")
    && (forall i | 0 <= i < |tokens| :: chars.upper(tokens[i].text) !in FORBIDDEN)
    && OnlyCalls(chars, tokens, "REPLACE")
  }

  ghost predicate Accepts(chars: Chars, sql: string) {
    !HasMarks(sql) && Outside(sql, 0).Some? && IsReadOnly(chars, Outside(sql, 0).value)
  }

  /**
   * The stripped statement is accepted exactly when its structure
   * outside quotes is read-only: the scans never disagree.
   */
  method ValidateReadOnlySql(chars: Chars, sql: string) returns (accepted: bool)
    requires chars.Valid() && chars.upper("REPLACE") == "REPLACE"
    ensures accepted <==> Accepts(chars, TrimSpace(chars.space, sql))
  {
    var normalized := TrimSpace(chars.space, sql);
    if HasMarks(normalized) {
      return false;
    }
    var tokens := SqlTokens(chars, normalized);
    if tokens.None? || |tokens.value| == 0 || (tokens.value[0] != "SELECT" && tokens.value[0] != "WITH") {
      return false;
    }
    ghost var found := Tokens(chars, Outside(normalized, 0).value, "");
    assert forall i | 0 <= i < |found| :: tokens.value[i] == chars.upper(found[i].text);
    var forbidden := exists token | token in tokens.value :: token in FORBIDDEN;
    assert forbidden <==> exists i | 0 <= i < |found| :: chars.upper(found[i].text) in FORBIDDEN;
    var calls := true;
    if "REPLACE" in tokens.value {
      calls := KeywordOccurrencesAreFunctionCalls(chars, normalized, "REPLACE");
    }
    accepted := !forbidden && calls;
  }

  // ---- Stripping ---------------------------------------------------------------------------------------------------

  /** White space is no part of words, quotes or marks. */
  ghost predicate Separates(chars: Chars) {
    chars.Valid() && forall c | chars.space(c) :: !chars.Word(c) && c !in ";-/*#"
  }

  lemma {:induction false} MarkAfterSpace(c: char, sql: string, mark: string)
    requires |mark| == 2 && c != mark[0]
    ensures Contains([c] + sql, mark) <==> Contains(sql, mark)
  {
    assert ([c] + sql)[1..] == sql;
    assert |sql| >= 1 ==> ([c] + sql)[..2][0] == c;
  }

  lemma {:induction false} MarkBeforeSpace(sql: string, c: char, mark: string)
    requires |mark| == 2 && c != mark[1]
    ensures Contains(sql + [c], mark) <==> Contains(sql, mark)
  {
    var text := sql + [c];
    if |sql| >= 2 {
      assert text[..2] == sql[..2] && text[1..] == sql[1..] + [c];
      MarkBeforeSpace(sql[1..], c, mark);
    } else if |sql| == 1 {
      assert text[..2][1] == c && text[1..] == [c];
      assert [c][1..] == "" && sql[1..] == "";
    } else {
      assert text == [c] && [c][1..] == "";
    }
  }

  lemma {:induction false} QuoteEndAfterSpace(c: char, sql: string, index: nat, quote: char)
    requires index <= |sql|
    ensures QuoteEnd([c] + sql, index + 1, quote)
         == match QuoteEnd(sql, index, quote) case None => None case Some(end) => Some(end + 1)
    decreases |sql| - index
  {
    if index < |sql| {
      var step := if sql[index] == quote then (if index + 1 < |sql| && sql[index + 1] == quote then 2 else 0)
                  else if sql[index] == '\\' && index + 1 < |sql| then 2 else 1;
      if step > 0 {
        QuoteEndAfterSpace(c, sql, index + step, quote);
      }
    }
  }

  lemma {:induction false} OutsideAfterSpace(c: char, sql: string, index: nat)
    requires index <= |sql|
    ensures Outside([c] + sql, index + 1) == Outside(sql, index)
    decreases |sql| - index
  {
    if index < |sql| {
      if IsQuote(sql[index]) {
        QuoteEndAfterSpace(c, sql, index + 1, sql[index]);
        var end := QuoteEnd(sql, index + 1, sql[index]);
        if end.Some? {
          assert ([c] + sql)[index + 2..end.value] == sql[index + 1..end.value - 1];
          OutsideAfterSpace(c, sql, end.value);
        }
      } else {
        OutsideAfterSpace(c, sql, index + 1);
      }
    }
  }

  lemma LeadingSpaceDoesNotMatter(chars: Chars, c: char, sql: string)
    requires Separates(chars) && chars.space(c)
    ensures Accepts(chars, [c] + sql) <==> Accepts(chars, sql)
  {
    MarkAfterSpace(c, sql, "--");
    MarkAfterSpace(c, sql, "/*");
    OutsideAfterSpace(c, sql, 0);
    if Outside(sql, 0).Some? {
      var pieces := Outside(sql, 0).value;
      assert Outside([c] + sql, 0) == Some([Plain(c)] + pieces);
      assert ([Plain(c)] + pieces)[1..] == pieces;
      assert Tokens(chars, [Plain(c)] + pieces, "") == Tokens(chars, pieces, "");
    }
  }

  lemma {:induction false} QuoteEndBeforeSpace(sql: string, c: char, index: nat, quote: char)
    requires index <= |sql| && c != quote
    ensures QuoteEnd(sql + [c], index, quote) == QuoteEnd(sql, index, quote)
    decreases |sql| - index
  {
    if index < |sql| {
      var step := if sql[index] == quote then (if index + 1 < |sql| && sql[index + 1] == quote then 2 else 0)
                  else if sql[index] == '\\' && index + 1 < |sql| then 2 else 1;
      if step > 0 {
        QuoteEndBeforeSpace(sql, c, index + step, quote);
      }
    }
  }

  function Followed(pieces: Option<seq<Piece>>, piece: Piece): Option<seq<Piece>> {
    match pieces
    case None => None
    case Some(before) => Some(before + [piece])
  }

  lemma FollowedStepwise(piece: Piece, rest: Option<seq<Piece>>, last: Piece)
    ensures Followed(Preceded(piece, rest), last) == Preceded(piece, Followed(rest, last))
  {
    if rest.Some? {
      assert [piece] + rest.value + [last] == [piece] + (rest.value + [last]);
    }
  }

  lemma {:induction false} OutsideBeforeSpace(sql: string, c: char, index: nat)
    requires index <= |sql| && !IsQuote(c)
    ensures Outside(sql + [c], index) == Followed(Outside(sql, index), Plain(c))
    decreases |sql| - index
  {
    if index < |sql| {
      if IsQuote(sql[index]) {
        QuoteEndBeforeSpace(sql, c, index + 1, sql[index]);
        var end := QuoteEnd(sql, index + 1, sql[index]);
        if end.Some? {
          assert (sql + [c])[index + 1..end.value - 1] == sql[index + 1..end.value - 1];
          OutsideBeforeSpace(sql, c, end.value);
          var body := sql[index + 1..end.value - 1];
          FollowedStepwise(Quoted(sql[index], body), Outside(sql, end.value), Plain(c));
        }
      } else {
        OutsideBeforeSpace(sql, c, index + 1);
        FollowedStepwise(Plain(sql[index]), Outside(sql, index + 1), Plain(c));
      }
    } else {
      assert Outside(sql + [c], |sql| + 1) == Some([]);
      assert [Plain(c)] + [] == [] + [Plain(c)];
    }
  }

  lemma {:induction false} CalledBeforeSpace(chars: Chars, pieces: seq<Piece>, c: char)
    requires chars.space(c)
    ensures Called(chars, pieces + [Plain(c)]) == Called(chars, pieces)
  {
    var all := pieces + [Plain(c)];
    if pieces == [] {
      assert all[1..] == [];
    } else {
      assert all[1..] == pieces[1..] + [Plain(c)];
      CalledBeforeSpace(chars, pieces[1..], c);
    }
  }

  /** A space at the end adds no token and turns no word into a call. */
  lemma {:induction false} TokensBeforeSpace(chars: Chars, pieces: seq<Piece>, c: char, current: string)
    requires chars.space(c) && !chars.Word(c)
    ensures var some, all := Tokens(chars, pieces, current), Tokens(chars, pieces + [Plain(c)], current);
            && |some| == |all|
            && forall i | 0 <= i < |some| ::
                 some[i].text == all[i].text && Called(chars, some[i].after) == Called(chars, all[i].after)
    decreases |pieces|
  {
    var all := pieces + [Plain(c)];
    CalledBeforeSpace(chars, pieces, c);
    if pieces == [] {
      assert all[1..] == [];
      assert Tokens(chars, all, current) == Pending(current, all) + Tokens(chars, [], "");
    } else {
      assert all[1..] == pieces[1..] + [Plain(c)];
      TokensBeforeSpace(chars, pieces[1..], c, if WordPiece(chars, pieces[0]) then current + [pieces[0].c] else "");
    }
  }

  lemma TrailingSpaceDoesNotMatter(chars: Chars, sql: string, c: char)
    requires Separates(chars) && chars.space(c)
    ensures Accepts(chars, sql + [c]) <==> Accepts(chars, sql)
  {
    MarkBeforeSpace(sql, c, "--");
    MarkBeforeSpace(sql, c, "/*");
    OutsideBeforeSpace(sql, c, 0);
    if Outside(sql, 0).Some? {
      TokensBeforeSpace(chars, Outside(sql, 0).value, c, "");
    }
  }

  lemma {:induction false} TrimLeftDoesNotMatter(chars: Chars, sql: string)
    requires Separates(chars)
    ensures Accepts(chars, TrimLeft(chars.space, sql)) <==> Accepts(chars, sql)
  {
    if sql != "" && chars.space(sql[0]) {
      TrimLeftDoesNotMatter(chars, sql[1..]);
      assert sql == [sql[0]] + sql[1..];
      LeadingSpaceDoesNotMatter(chars, sql[0], sql[1..]);
    }
  }

  lemma {:induction false} TrimRightDoesNotMatter(chars: Chars, sql: string)
    requires Separates(chars)
    ensures Accepts(chars, TrimRight(chars.space, sql)) <==> Accepts(chars, sql)
  {
    if sql != "" && chars.space(sql[|sql| - 1]) {
      TrimRightDoesNotMatter(chars, sql[..|sql| - 1]);
      assert sql == sql[..|sql| - 1] + [sql[|sql| - 1]];
      TrailingSpaceDoesNotMatter(chars, sql[..|sql| - 1], sql[|sql| - 1]);
    }
  }

  /** The stripped text is checked and the text as it came is executed; the verdict is the same for both. */
  lemma StrippingDoesNotMatter(chars: Chars, sql: string)
    requires Separates(chars)
    ensures Accepts(chars, TrimSpace(chars.space, sql)) <==> Accepts(chars, sql)
  {
    TrimLeftDoesNotMatter(chars, sql);
    TrimRightDoesNotMatter(chars, TrimLeft(chars.space, sql));
  }
}
