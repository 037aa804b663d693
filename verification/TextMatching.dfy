/** SQL's ILIKE, and when the pattern `%value%` means "contains the value". */
module TextMatching {

  /** How the database folds case: any mapping of characters. */
  type Fold = char -> char

  /** `text ILIKE pattern`: `%` stands for any run, `_` for any character, `\` escapes the next one. */
  predicate ILike(fold: Fold, pattern: string, text: string)
    decreases |pattern| + |text|
  {
    if pattern == [] then text == []
    else if pattern[0] == '%' then
      ILike(fold, pattern[1..], text) || (text != [] && ILike(fold, pattern, text[1..]))
    else if pattern[0] == '\\' then
      |pattern| > 1 && text != [] && fold(pattern[1]) == fold(text[0])
      && ILike(fold, pattern[2..], text[1..])
    else
      text != [] && (pattern[0] == '_' || fold(pattern[0]) == fold(text[0]))
      && ILike(fold, pattern[1..], text[1..])
  }

  predicate SameText(fold: Fold, a: string, b: string) {
    |a| == |b| && forall i :: 0 <= i < |a| ==> fold(a[i]) == fold(b[i])
  }

  predicate OccursAt(fold: Fold, value: string, text: string, i: int) {
    0 <= i <= |text| - |value| && SameText(fold, value, text[i..i + |value|])
  }

  /** What "contains" promises a user: the value occurs in the text, whatever its case. */
  ghost predicate Contains(fold: Fold, value: string, text: string) {
    exists i :: OccursAt(fold, value, text, i)
  }

  /** No character of the value means something to ILIKE. */
  predicate Plain(value: string) {
    forall i :: 0 <= i < |value| ==> value[i] !in {'%', '_', '\\'}
  }

  lemma {:induction false} LeadingPercent(fold: Fold, rest: string, text: string)
    ensures ILike(fold, "%" + rest, text) <==> exists i :: 0 <= i <= |text| && ILike(fold, rest, text[i..])
    decreases |text|
  {
    assert ("%" + rest)[1..] == rest && text[0..] == text;
    if text != [] {
      LeadingPercent(fold, rest, text[1..]);
      forall i | 1 <= i <= |text| ensures text[1..][i - 1..] == text[i..] {}
      if ILike(fold, "%" + rest, text[1..]) {
        var i :| 0 <= i <= |text[1..]| && ILike(fold, rest, text[1..][i..]);
        assert text[1..][i..] == text[i + 1..];
      }
      if i :| 1 <= i <= |text| && ILike(fold, rest, text[i..]) {
        assert text[1..][i - 1..] == text[i..];
      }
    }
  }

  lemma {:induction false} TrailingPercent(fold: Fold, text: string)
    ensures ILike(fold, "%", text)
    decreases |text|
  {
    if text != [] { TrailingPercent(fold, text[1..]); }
  }

  lemma {:induction false} PlainPrefix(fold: Fold, value: string, text: string)
    requires Plain(value)
    ensures ILike(fold, value + "%", text) <==> |value| <= |text| && SameText(fold, value, text[..|value|])
    decreases |value|
  {
    if value == [] {
      assert value + "%" == "%";
      TrailingPercent(fold, text);
    } else {
      assert (value + "%")[1..] == value[1..] + "%";
      if text != [] {
        PlainPrefix(fold, value[1..], text[1..]);
        if |value| <= |text| {
          assert text[..|value|][1..] == text[1..][..|value| - 1];
          assert SameText(fold, value, text[..|value|]) <==>
            fold(value[0]) == fold(text[0]) && SameText(fold, value[1..], text[1..][..|value| - 1]) by {
            forall i | 1 <= i < |value|
              ensures value[i] == value[1..][i - 1] && text[..|value|][i] == text[1..][..|value| - 1][i - 1] {}
          }
        }
      }
    }
  }

  /** A plain value between two percent signs means "contains". */
  lemma PlainContains(fold: Fold, value: string, text: string)
    requires Plain(value)
    ensures ILike(fold, "%" + value + "%", text) <==> Contains(fold, value, text)
  {
    assert "%" + value + "%" == "%" + (value + "%");
    LeadingPercent(fold, value + "%", text);
    forall i | 0 <= i <= |text|
      ensures ILike(fold, value + "%", text[i..]) <==> OccursAt(fold, value, text, i)
    {
      PlainPrefix(fold, value, text[i..]);
      if i <= |text| - |value| { assert text[i..][..|value|] == text[i..i + |value|]; }
    }
    if ILike(fold, "%" + (value + "%"), text) {
      var i :| 0 <= i <= |text| && ILike(fold, value + "%", text[i..]);
      assert OccursAt(fold, value, text, i);
    }
  }

  /** A text the pattern matches although, if the value is not plain, it does not contain it. */
  function Impostor(value: string): (text: string)
    ensures |text| <= |value|
    decreases |value|
  {
    if value == [] then []
    else if value[0] == '\\' then
      if |value| == 1 then "%" else [value[1]] + Impostor(value[2..])
    else (if value[0] in {'%', '_'} then "x" else [value[0]]) + Impostor(value[1..])
  }

  lemma {:induction false} ImpostorMatches(fold: Fold, value: string)
    ensures ILike(fold, value + "%", Impostor(value))
    decreases |value|
  {
    var pattern, text := value + "%", Impostor(value);
    if value == [] {
      TrailingPercent(fold, []);
    } else if value[0] == '\\' {
      if |value| == 1 {
        assert pattern[2..] == [] && text[1..] == [];
      } else {
        assert pattern[2..] == value[2..] + "%" && text[1..] == Impostor(value[2..]);
        ImpostorMatches(fold, value[2..]);
      }
    } else {
      assert pattern[1..] == value[1..] + "%" && text[1..] == Impostor(value[1..]);
      ImpostorMatches(fold, value[1..]);
      if value[0] == '%' { SkipOne(fold, value[1..] + "%", text); }
    }
  }

  lemma SkipOne(fold: Fold, rest: string, text: string)
    requires text != [] && ILike(fold, rest, text[1..])
    ensures ILike(fold, "%" + rest, text)
  {
    LeadingPercent(fold, rest, text);
  }

  lemma {:induction false} ImpostorDiffers(fold: Fold, value: string)
    requires fold('x') != fold('%') && fold('x') != fold('_') && fold('%') != fold('\\')
    requires SameText(fold, value, Impostor(value))
    ensures Plain(value)
    decreases |value|
  {
    if value != [] {
      var text := Impostor(value);
      assert fold(value[0]) == fold(text[0]);
      if value[0] == '\\' {
        assert false;
      } else {
        assert text[1..] == Impostor(value[1..]);
        forall i | 0 <= i < |value| - 1 ensures fold(value[1..][i]) == fold(text[1..][i]) {
          assert value[1..][i] == value[i + 1] && text[1..][i] == text[i + 1];
        }
        ImpostorDiffers(fold, value[1..]);
      }
    }
  }

  /**
   * The exact condition: the pattern built from a value means "contains" on every text if and only
   * if the value is plain.
   */
  lemma ContainsIffPlain(fold: Fold, value: string)
    requires fold('x') != fold('%') && fold('x') != fold('_') && fold('%') != fold('\\')
    ensures Plain(value) <==>
      forall text :: ILike(fold, "%" + value + "%", text) <==> Contains(fold, value, text)
  {
    if Plain(value) {
      forall text { PlainContains(fold, value, text); }
    } else {
      var text := Impostor(value);
      ImpostorMatches(fold, value);
      assert "%" + value + "%" == "%" + (value + "%") && text[0..] == text;
      LeadingPercent(fold, value + "%", text);
      if Contains(fold, value, text) {
        var i :| OccursAt(fold, value, text, i);
        assert text[i..i + |value|] == text;
        ImpostorDiffers(fold, value);
      }
    }
  }

  /** It fails, for one, on `50%`, which also matches the text `50x`. */
  lemma FiftyPercentMatchesFiftyX(fold: Fold)
    requires fold('x') != fold('%')
    ensures ILike(fold, "%" + "50%" + "%", "50x") && !Contains(fold, "50%", "50x")
  {
    var value, text := "50%", "50x";
    assert Impostor("%") == "x" by { assert "%"[1..] == ""; }
    assert Impostor("0%") == "0x" by { assert "0%"[1..] == "%"; }
    assert Impostor(value) == text by { assert value[1..] == "0%"; }
    ImpostorMatches(fold, value);
    assert "%" + value + "%" == "%" + (value + "%") && text[0..] == text;
    LeadingPercent(fold, value + "%", text);
    assert text[0..3] == text;
  }
}
