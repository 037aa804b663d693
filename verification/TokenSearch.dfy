/** The search box: every word of the search must occur in some column. */
module TokenSearch {
  import opened Wrappers
  import opened TextMatching
  import opened FilterModel

  type Spaces = char -> bool

  /** How long the text goes on without a space. */
  function WordLength(space: Spaces, text: string): (n: nat)
    ensures n <= |text|
    ensures forall i :: 0 <= i < n ==> !space(text[i])
    ensures n < |text| ==> space(text[n])
  {
    if text == [] || space(text[0]) then 0 else 1 + WordLength(space, text[1..])
  }

  /** `search.strip().split()`. */
  function Tokens(space: Spaces, text: string): (tokens: seq<string>)
    ensures forall t :: t in tokens ==> t != "" && forall i :: 0 <= i < |t| ==> !space(t[i])
    decreases |text|
  {
    if text == [] then []
    else if space(text[0]) then Tokens(space, text[1..])
    else
      var n := WordLength(space, text);
      [text[..n]] + Tokens(space, text[n..])
  }

  function Join(tokens: seq<string>): string {
    if tokens == [] then [] else tokens[0] + Join(tokens[1..])
  }

  function WithoutSpaces(space: Spaces, text: string): string {
    if text == [] then []
    else (if space(text[0]) then [] else [text[0]]) + WithoutSpaces(space, text[1..])
  }

  /** Splitting loses nothing but the spaces. */
  lemma {:induction false} TokensKeepTheText(space: Spaces, text: string)
    ensures Join(Tokens(space, text)) == WithoutSpaces(space, text)
    decreases |text|
  {
    if text != [] {
      if space(text[0]) {
        TokensKeepTheText(space, text[1..]);
      } else {
        var n := WordLength(space, text);
        TokensKeepTheText(space, text[n..]);
        WordStays(space, text, n);
        assert Tokens(space, text)[1..] == Tokens(space, text[n..]);
      }
    }
  }

  lemma {:induction false} WordStays(space: Spaces, text: string, n: nat)
    requires n <= |text| && forall i :: 0 <= i < n ==> !space(text[i])
    ensures WithoutSpaces(space, text) == text[..n] + WithoutSpaces(space, text[n..])
    decreases n
  {
    if n == 0 {
      assert text[0..] == text && text[..0] == [];
    } else {
      var rest := text[1..];
      WordStays(space, rest, n - 1);
      assert rest[n - 1..] == text[n..];
      assert [text[0]] + rest[..n - 1] == text[..n];
    }
  }

  /** The text from `i` to `j` is a word: no space in it, and nothing but spaces or the ends around it. */
  ghost predicate IsWord(space: Spaces, text: string, i: int, j: int) {
    && 0 <= i < j <= |text|
    && (forall k :: i <= k < j ==> !space(text[k]))
    && (i == 0 || space(text[i - 1])) && (j == |text| || space(text[j]))
  }

  ghost predicate HasWord(space: Spaces, text: string, t: string) {
    exists i, j :: IsWord(space, text, i, j) && text[i..j] == t
  }

  lemma WordsBehindASpace(space: Spaces, text: string, t: string)
    requires text != [] && space(text[0])
    ensures HasWord(space, text, t) <==> HasWord(space, text[1..], t)
  {
    if i, j :| IsWord(space, text, i, j) && text[i..j] == t {
      assert IsWord(space, text[1..], i - 1, j - 1) && text[1..][i - 1..j - 1] == t;
    }
    if i, j :| IsWord(space, text[1..], i, j) && text[1..][i..j] == t {
      assert IsWord(space, text, i + 1, j + 1) && text[i + 1..j + 1] == t;
    }
  }

  lemma WordsBehindAWord(space: Spaces, text: string, n: nat, t: string)
    requires IsWord(space, text, 0, n)
    ensures HasWord(space, text, t) <==> t == text[..n] || HasWord(space, text[n..], t)
  {
    assert text[0..n] == text[..n];
    if i, j :| IsWord(space, text, i, j) && text[i..j] == t {
      if i < n {
        assert i == 0 && j == n;
      } else {
        assert IsWord(space, text[n..], i - n, j - n) && text[n..][i - n..j - n] == t;
      }
    }
    if i, j :| IsWord(space, text[n..], i, j) && text[n..][i..j] == t {
      assert i > 0 && IsWord(space, text, i + n, j + n) && text[i + n..j + n] == t;
    }
  }

  /** The tokens are exactly the maximal runs without a space. */
  lemma {:induction false} TokensAreWords(space: Spaces, text: string, t: string)
    ensures t in Tokens(space, text) <==> HasWord(space, text, t)
    decreases |text|
  {
    if text != [] {
      if space(text[0]) {
        WordsBehindASpace(space, text, t);
        TokensAreWords(space, text[1..], t);
      } else {
        var n := WordLength(space, text);
        WordsBehindAWord(space, text, n, t);
        TokensAreWords(space, text[n..], t);
      }
    }
  }

  function TokenCondition(token: string, columns: seq<string>): Cond {
    Or(seq(|columns|, i requires 0 <= i < |columns| => TextLike(columns[i], "%" + token + "%")))
  }

  /** `build_token_search`. */
  method BuildTokenSearch(space: Spaces, search: string, columns: seq<string>) returns (condition: Option<Cond>)
    ensures condition.None? <==> Tokens(space, search) == []
    ensures condition.Some? ==> condition.value == Searched(Tokens(space, search), columns)
  {
    var tokens := Tokens(space, search);
    if tokens == [] {
      return None;
    }
    var conditions := [];
    for i := 0 to |tokens|
      invariant |conditions| == i
      invariant forall j :: 0 <= j < i ==> conditions[j] == TokenCondition(tokens[j], columns)
    {
      conditions := conditions + [TokenCondition(tokens[i], columns)];
    }
    assert conditions == Searched(tokens, columns).all;
    return Some(And(conditions));
  }

  function Searched(tokens: seq<string>, columns: seq<string>): Cond {
    And(seq(|tokens|, i requires 0 <= i < |tokens| => TokenCondition(tokens[i], columns)))
  }

  /** The column has a value that the token's pattern matches. */
  ghost predicate MatchedIn(db: Database, token: string, row: Row, column: string) {
    CellAt(row, column) != Null && db.Matches(CellAt(row, column), "%" + token + "%")
  }

  /** The column has a value, and the token occurs in it. */
  ghost predicate FoundIn(db: Database, token: string, row: Row, column: string) {
    CellAt(row, column) != Null && Contains(db.fold, token, db.text(CellAt(row, column)))
  }

  lemma TokenConditionMeans(db: Database, token: string, columns: seq<string>, row: Row)
    ensures Kept(db, TokenCondition(token, columns), row) <==>
      exists column :: column in columns && MatchedIn(db, token, row, column)
  {
    var parts := TokenCondition(token, columns).any;
    assert Eval(db, Or(parts), row) == EvalAny(db, parts, row);
    AnyKept(db, parts, row);
    forall i | 0 <= i < |columns|
      ensures parts[i] in parts && columns[i] in columns
      ensures Kept(db, parts[i], row) <==> MatchedIn(db, token, row, columns[i])
    {
      assert parts[i] == TextLike(columns[i], "%" + token + "%");
    }
    if column :| column in columns && MatchedIn(db, token, row, column) {
      var i :| 0 <= i < |columns| && columns[i] == column;
      assert parts[i] in parts && Kept(db, parts[i], row);
    }
  }

  /** A search keeps the rows where the pattern of every word matches some column. */
  lemma SearchMatchesEveryToken(db: Database, space: Spaces, search: string, columns: seq<string>, row: Row)
    requires columns != []
    ensures Kept(db, Searched(Tokens(space, search), columns), row) <==>
      forall t :: t in Tokens(space, search) ==>
        exists column :: column in columns && MatchedIn(db, t, row, column)
  {
    var tokens := Tokens(space, search);
    var parts := Searched(tokens, columns).all;
    assert Eval(db, And(parts), row) == EvalAll(db, parts, row);
    AllKept(db, parts, row);
    forall i | 0 <= i < |tokens|
      ensures parts[i] in parts && tokens[i] in tokens && parts[i] == TokenCondition(tokens[i], columns)
      ensures Kept(db, parts[i], row) <==> exists column :: column in columns && MatchedIn(db, tokens[i], row, column)
    {
      TokenConditionMeans(db, tokens[i], columns, row);
    }
  }

  /** Without wildcards these are the rows where every word occurs in some column. */
  lemma SearchFindsEveryToken(db: Database, space: Spaces, search: string, columns: seq<string>, row: Row)
    requires columns != [] && forall t :: t in Tokens(space, search) ==> Plain(t)
    ensures Kept(db, Searched(Tokens(space, search), columns), row) <==>
      forall t :: t in Tokens(space, search) ==>
        exists column :: column in columns && FoundIn(db, t, row, column)
  {
    SearchMatchesEveryToken(db, space, search, columns, row);
    forall t, column | t in Tokens(space, search)
      ensures MatchedIn(db, t, row, column) <==> FoundIn(db, t, row, column)
    {
      PlainContains(db.fold, t, db.text(CellAt(row, column)));
    }
  }

  /** A word means "occurs in the column" on every row if and only if it has no wildcard. */
  lemma WordIsFoundIffPlain(db: Database, token: string, column: string)
    requires forall s :: db.text(Text(s)) == s
    requires db.fold('x') != db.fold('%') && db.fold('x') != db.fold('_') && db.fold('%') != db.fold('\\')
    ensures Plain(token) <==>
      forall row :: MatchedIn(db, token, row, column) <==> FoundIn(db, token, row, column)
  {
    ContainsIffPlain(db.fold, token);
    if !Plain(token) {
      var text :| ILike(db.fold, "%" + token + "%", text) != Contains(db.fold, token, text);
      var row: Row := map[column := Text(text)];
      assert CellAt(row, column) == Text(text) && db.text(Text(text)) == text;
      assert MatchedIn(db, token, row, column) != FoundIn(db, token, row, column);
    } else {
      forall row ensures MatchedIn(db, token, row, column) <==> FoundIn(db, token, row, column) {
        PlainContains(db.fold, token, db.text(CellAt(row, column)));
      }
    }
  }
}
