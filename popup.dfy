/**
 * `escapeHtml` of the LLM Puzzle Break popup (popup.js): five global
 * replacements, `&` first, that turn a text into HTML-safe text.
 */
module Popup {
  import opened Runtime
  import opened Strings

  const Amp := "&amp;"
  const Lt := "&lt;"
  const Gt := "&gt;"
  const Quot := "&quot;"
  const Apos := "&#039;"

  /** `s.replace(/c/g, r)` for a single character `c`. */
  function ReplaceAll(s: string, c: char, r: string): string
  {
    if s == [] then [] else (if s[0] == c then r else [s[0]]) + ReplaceAll(s[1..], c, r)
  }

  /** `escapeHtml(unsafe)`: a falsy input gives "", any other is passed through the five replacements in order. */
  function EscapeHtml(unsafe: Option<string>): string
  {
    if !Present(unsafe) then ""
    else Chain(unsafe.value)
  }

  /** The five global replacements, in the order the source applies them. */
  function Chain(s: string): string
  {
    ReplaceAll(ReplaceAll(ReplaceAll(ReplaceAll(ReplaceAll(s, '&', Amp), '<', Lt), '>', Gt), '"', Quot), '\'', Apos)
  }

  // ---------------------------------------------------------------------
  // The chain as one pass over the characters
  // ---------------------------------------------------------------------

  /** The entity one character becomes. */
  function EscapeChar(c: char): string
  {
    if c == '&' then Amp
    else if c == '<' then Lt
    else if c == '>' then Gt
    else if c == '"' then Quot
    else if c == '\'' then Apos
    else [c]
  }

  /** Each character replaced by its entity, in one pass. */
  function EscapeAll(s: string): string
  {
    if s == [] then [] else EscapeChar(s[0]) + EscapeAll(s[1..])
  }

  lemma {:induction false} ReplaceAllAppend(a: string, b: string, c: char, r: string)
    ensures ReplaceAll(a + b, c, r) == ReplaceAll(a, c, r) + ReplaceAll(b, c, r)
  {
    if a == [] {
      assert a + b == b;
    } else {
      assert (a + b)[1..] == a[1..] + b;
      ReplaceAllAppend(a[1..], b, c, r);
    }
  }

  lemma {:induction false} ReplaceAllAbsent(s: string, c: char, r: string)
    requires c !in s
    ensures ReplaceAll(s, c, r) == s
  {
    if s != [] {
      ReplaceAllAbsent(s[1..], c, r);
    }
  }

  lemma ChainAppend(a: string, b: string)
    ensures Chain(a + b) == Chain(a) + Chain(b)
  {
    var a1 := ReplaceAll(a, '&', Amp);
    var b1 := ReplaceAll(b, '&', Amp);
    ReplaceAllAppend(a, b, '&', Amp);
    var a2 := ReplaceAll(a1, '<', Lt);
    var b2 := ReplaceAll(b1, '<', Lt);
    ReplaceAllAppend(a1, b1, '<', Lt);
    var a3 := ReplaceAll(a2, '>', Gt);
    var b3 := ReplaceAll(b2, '>', Gt);
    ReplaceAllAppend(a2, b2, '>', Gt);
    var a4 := ReplaceAll(a3, '"', Quot);
    var b4 := ReplaceAll(b3, '"', Quot);
    ReplaceAllAppend(a3, b3, '"', Quot);
    ReplaceAllAppend(a4, b4, '\'', Apos);
  }

  lemma ReplaceAllSingle(c: char, d: char, r: string)
    ensures ReplaceAll([c], d, r) == if c == d then r else [c]
  {
    assert [c][1..] == [];
  }

  /** The four replacements after `&` leave a text alone when it holds none of their characters. */
  lemma TailKeeps(t: string)
    requires forall i :: 0 <= i < |t| ==> t[i] != '<' && t[i] != '>' && t[i] != '"' && t[i] != '\''
    ensures ReplaceAll(ReplaceAll(ReplaceAll(ReplaceAll(t, '<', Lt), '>', Gt), '"', Quot), '\'', Apos) == t
  {
    ReplaceAllAbsent(t, '<', Lt);
    ReplaceAllAbsent(t, '>', Gt);
    ReplaceAllAbsent(t, '"', Quot);
    ReplaceAllAbsent(t, '\'', Apos);
  }

  lemma ChainAmp()
    ensures Chain(['&']) == Amp
  {
    ReplaceAllSingle('&', '&', Amp);
    assert Amp == ['&', 'a', 'm', 'p', ';'];
    TailKeeps(Amp);
  }

  lemma ChainLt()
    ensures Chain(['<']) == Lt
  {
    ReplaceAllSingle('<', '&', Amp);
    ReplaceAllSingle('<', '<', Lt);
    var t := ReplaceAll(ReplaceAll(['<'], '&', Amp), '<', Lt);
    assert t == Lt;
    assert '>' !in Lt && '"' !in Lt && '\'' !in Lt;
    TailAfterLt(Lt);
  }

  lemma TailAfterLt(t: string)
    requires '>' !in t && '"' !in t && '\'' !in t
    ensures ReplaceAll(ReplaceAll(ReplaceAll(t, '>', Gt), '"', Quot), '\'', Apos) == t
  {
    ReplaceAllAbsent(t, '>', Gt);
    ReplaceAllAbsent(t, '"', Quot);
    ReplaceAllAbsent(t, '\'', Apos);
  }

  lemma ChainGt()
    ensures Chain(['>']) == Gt
  {
    ReplaceAllSingle('>', '&', Amp);
    ReplaceAllSingle('>', '<', Lt);
    ReplaceAllSingle('>', '>', Gt);
    ReplaceAllAbsent(Gt, '"', Quot);
    ReplaceAllAbsent(Gt, '\'', Apos);
  }

  lemma ChainQuot()
    ensures Chain(['"']) == Quot
  {
    ReplaceAllSingle('"', '&', Amp);
    ReplaceAllSingle('"', '<', Lt);
    ReplaceAllSingle('"', '>', Gt);
    ReplaceAllSingle('"', '"', Quot);
    ReplaceAllAbsent(Quot, '\'', Apos);
  }

  lemma ChainApos()
    ensures Chain(['\'']) == Apos
  {
    ReplaceAllSingle('\'', '&', Amp);
    ReplaceAllSingle('\'', '<', Lt);
    ReplaceAllSingle('\'', '>', Gt);
    ReplaceAllSingle('\'', '"', Quot);
    ReplaceAllSingle('\'', '\'', Apos);
  }

  lemma ChainOther(c: char)
    requires c != '&' && c != '<' && c != '>' && c != '"' && c != '\''
    ensures Chain([c]) == [c]
  {
    ReplaceAllSingle(c, '&', Amp);
    ReplaceAllSingle(c, '<', Lt);
    ReplaceAllSingle(c, '>', Gt);
    ReplaceAllSingle(c, '"', Quot);
    ReplaceAllSingle(c, '\'', Apos);
  }

  /** On one character the chain produces that character's entity: no replacement undoes an earlier one. */
  lemma ChainChar(c: char)
    ensures Chain([c]) == EscapeChar(c)
  {
    if c == '&' { ChainAmp(); }
    else if c == '<' { ChainLt(); }
    else if c == '>' { ChainGt(); }
    else if c == '"' { ChainQuot(); }
    else if c == '\'' { ChainApos(); }
    else { ChainOther(c); }
  }

  /** The chain of global replacements equals the one-pass, per-character escape. */
  lemma {:induction false} EscapeHtmlIsPerCharacter(s: string)
    ensures Chain(s) == EscapeAll(s)
  {
    if s == [] {
    } else {
      assert s == [s[0]] + s[1..];
      ChainAppend([s[0]], s[1..]);
      ChainChar(s[0]);
      EscapeHtmlIsPerCharacter(s[1..]);
    }
  }

  lemma EscapeHtmlOfText(s: string)
    requires s != ""
    ensures EscapeHtml(Some(s)) == EscapeAll(s)
  {
    EscapeHtmlIsPerCharacter(s);
  }

  // ---------------------------------------------------------------------
  // Properties of the escaped text
  // ---------------------------------------------------------------------

  /** None of the four characters that are not `&` is left. */
  predicate HtmlSafe(t: string)
  {
    forall i :: 0 <= i < |t| ==> t[i] != '<' && t[i] != '>' && t[i] != '"' && t[i] != '\''
  }

  /** One of the five entities begins at position `i` of `t`. */
  predicate EntityAt(t: string, i: int)
  {
    OccursAt(t, Amp, i) || OccursAt(t, Lt, i) || OccursAt(t, Gt, i) || OccursAt(t, Quot, i) || OccursAt(t, Apos, i)
  }

  /** Every `&` begins one of the five entities. */
  predicate AmpersandsBeginEntities(t: string)
  {
    forall i :: 0 <= i < |t| && t[i] == '&' ==> EntityAt(t, i)
  }

  lemma OccursAtAfter(p: string, rest: string, e: string, j: int)
    requires OccursAt(rest, e, j)
    ensures OccursAt(p + rest, e, |p| + j)
  {
    assert (p + rest)[|p| + j..|p| + j + |e|] == rest[j..j + |e|];
  }

  lemma EntityAtAfter(p: string, rest: string, j: int)
    requires EntityAt(rest, j)
    ensures EntityAt(p + rest, |p| + j)
  {
    if OccursAt(rest, Amp, j) { OccursAtAfter(p, rest, Amp, j); }
    else if OccursAt(rest, Lt, j) { OccursAtAfter(p, rest, Lt, j); }
    else if OccursAt(rest, Gt, j) { OccursAtAfter(p, rest, Gt, j); }
    else if OccursAt(rest, Quot, j) { OccursAtAfter(p, rest, Quot, j); }
    else { OccursAtAfter(p, rest, Apos, j); }
  }

  /** Inside one escaped character, `&` appears only at the start, where its entity begins. */
  lemma EscapeCharEntity(c: char, rest: string, i: int)
    requires 0 <= i < |EscapeChar(c)| && EscapeChar(c)[i] == '&'
    ensures i == 0 && EntityAt(EscapeChar(c) + rest, 0)
  {
    var p := EscapeChar(c);
    assert (p + rest)[..|p|] == p;
  }

  lemma EscapeCharSafe(c: char)
    ensures HtmlSafe(EscapeChar(c))
  {
  }

  lemma {:induction false} EscapeAllHtmlSafe(s: string)
    ensures HtmlSafe(EscapeAll(s))
  {
    if s != [] {
      EscapeAllHtmlSafe(s[1..]);
      EscapeCharSafe(s[0]);
      var p := EscapeChar(s[0]);
      var rest := EscapeAll(s[1..]);
      assert forall i :: |p| <= i < |p + rest| ==> (p + rest)[i] == rest[i - |p|];
    }
  }

  lemma {:induction false} EscapeAllEntities(s: string)
    ensures AmpersandsBeginEntities(EscapeAll(s))
  {
    if s != [] {
      EscapeAllEntities(s[1..]);
      var p := EscapeChar(s[0]);
      var rest := EscapeAll(s[1..]);
      var t := p + rest;
      forall i | 0 <= i < |t| && t[i] == '&'
        ensures EntityAt(t, i)
      {
        if i < |p| {
          EscapeCharEntity(s[0], rest, i);
        } else {
          assert rest[i - |p|] == '&';
          EntityAtAfter(p, rest, i - |p|);
        }
      }
    }
  }

  /**
   * The output of `escapeHtml` contains no `<`, `>`, `"` or `'`, and every
   * `&` in it begins an entity, because `&` is replaced first.
   */
  lemma EscapeHtmlSafe(unsafe: Option<string>)
    ensures HtmlSafe(EscapeHtml(unsafe))
    ensures AmpersandsBeginEntities(EscapeHtml(unsafe))
    ensures !Present(unsafe) ==> EscapeHtml(unsafe) == ""
  {
    if Present(unsafe) {
      EscapeHtmlOfText(unsafe.value);
      EscapeAllHtmlSafe(unsafe.value);
      EscapeAllEntities(unsafe.value);
    }
  }

  /** A text holding none of the five characters is not changed. */
  lemma {:induction false} EscapeHtmlKeepsPlainText(s: string)
    requires forall i :: 0 <= i < |s| ==> EscapeChar(s[i]) == [s[i]]
    ensures EscapeAll(s) == s
  {
    if s != [] {
      EscapeHtmlKeepsPlainText(s[1..]);
      assert s == [s[0]] + s[1..];
    }
  }

  // ---------------------------------------------------------------------
  // Round trip
  // ---------------------------------------------------------------------

  /** Decoding of the five entities, left to right; any other character stands for itself. */
  function Unescape(t: string): string
    decreases |t|
  {
    if t == [] then []
    else if StartsWith(t, Amp) then "&" + Unescape(t[|Amp|..])
    else if StartsWith(t, Lt) then "<" + Unescape(t[|Lt|..])
    else if StartsWith(t, Gt) then ">" + Unescape(t[|Gt|..])
    else if StartsWith(t, Quot) then "\"" + Unescape(t[|Quot|..])
    else if StartsWith(t, Apos) then "'" + Unescape(t[|Apos|..])
    else [t[0]] + Unescape(t[1..])
  }

  /** Decoding one escaped character followed by the rest decodes the rest. */
  lemma UnescapeStep(c: char, rest: string)
    ensures Unescape(EscapeChar(c) + rest) == [c] + Unescape(rest)
  {
    var t := EscapeChar(c) + rest;
    assert t[..|EscapeChar(c)|] == EscapeChar(c);
    assert t[|EscapeChar(c)|..] == rest;
    if c != '&' && c != '<' && c != '>' && c != '"' && c != '\'' {
      assert t[0] == c;
      assert !StartsWith(t, Amp) && !StartsWith(t, Lt) && !StartsWith(t, Gt) && !StartsWith(t, Quot) && !StartsWith(t, Apos) by {
        assert Amp[0] == '&' && Lt[0] == '&' && Gt[0] == '&' && Quot[0] == '&' && Apos[0] == '&';
      }
    } else if c == '<' {
      assert !StartsWith(t, Amp) by { assert t[1] == 'l'; }
    } else if c == '>' {
      assert !StartsWith(t, Amp) by { assert t[1] == 'g'; }
      assert !StartsWith(t, Lt) by { assert t[1] == 'g'; }
    } else if c == '"' {
      assert !StartsWith(t, Amp) by { assert t[1] == 'q'; }
      assert !StartsWith(t, Lt) by { assert t[1] == 'q'; }
      assert !StartsWith(t, Gt) by { assert t[1] == 'q'; }
    } else if c == '\'' {
      assert !StartsWith(t, Amp) by { assert t[1] == '#'; }
      assert !StartsWith(t, Lt) by { assert t[1] == '#'; }
      assert !StartsWith(t, Gt) by { assert t[1] == '#'; }
      assert !StartsWith(t, Quot) by { assert t[1] == '#'; }
    }
  }

  /** Decoding the escaped text gives back the original: the escape loses nothing. */
  lemma {:induction false} UnescapeEscape(s: string)
    ensures Unescape(EscapeAll(s)) == s
  {
    if s != [] {
      UnescapeStep(s[0], EscapeAll(s[1..]));
      UnescapeEscape(s[1..]);
      assert s == [s[0]] + s[1..];
    }
  }

  /** `escapeHtml` of a non-empty text decodes back to that text. */
  lemma EscapeHtmlRoundTrip(s: string)
    requires s != ""
    ensures Unescape(EscapeHtml(Some(s))) == s
  {
    EscapeHtmlOfText(s);
    UnescapeEscape(s);
  }
}
