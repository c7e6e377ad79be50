/**
 * The page analysis of the Dev Context Helper content script
 * (content_script.js): keyword extraction, the error heuristic, language
 * detection for a code element, and the assembly of the page context from
 * the selection, the `pre code` elements and a Stack Overflow error box.
 *
 * The DOM is not modelled: a code element is its class list, the class list
 * of its enclosing `pre` (if any) and its text, and the page is the URL, the
 * title, the selection text, the code elements in document order and the
 * text of the error box (if present).
 */
module ContentScript {
  import opened Runtime
  import opened Strings

  // ---------------------------------------------------------------------
  // extractKeywords
  // ---------------------------------------------------------------------

  const MaxKeywords: nat := 15

  /** The `commonWords` set. */
  const CommonWords: set<string> := {
    "the", "a", "an", "is", "was", "were", "be", "to", "of", "in", "it", "that", "this", "and", "or", "for",
    "with", "as", "on", "at", "from", "by", "new", "function", "var", "let", "const", "if", "else", "while",
    "return", "import", "export", "class", "def", "self", "public", "private", "static", "void"
  }

  /** `[a-zA-Z_]` */
  predicate IsWordStart(c: char)
  {
    'a' <= c <= 'z' || 'A' <= c <= 'Z' || c == '_'
  }

  /** `[a-zA-Z0-9_.]` */
  predicate IsWordChar(c: char)
  {
    IsWordStart(c) || IsDigit(c) || c == '.'
  }

  /** A match of `[a-zA-Z_][a-zA-Z0-9_.]*`. */
  predicate IsToken(t: string)
  {
    t != [] && IsWordStart(t[0]) && forall i :: 0 <= i < |t| ==> IsWordChar(t[i])
  }

  /** The length of the longest prefix of word characters: what the greedy `*` consumes. */
  function RunLength(s: string): (n: nat)
    ensures n <= |s|
    ensures forall i :: 0 <= i < n ==> IsWordChar(s[i])
    ensures n < |s| ==> !IsWordChar(s[n])
  {
    if s == [] || !IsWordChar(s[0]) then 0 else 1 + RunLength(s[1..])
  }

  /** `text.match(/[a-zA-Z_][a-zA-Z0-9_.]*\/g) || []`: the maximal tokens, left to right. */
  function Tokens(s: string): (tokens: seq<string>)
    ensures forall k :: 0 <= k < |tokens| ==> IsToken(tokens[k])
    decreases |s|
  {
    if s == [] then []
    else if !IsWordStart(s[0]) then Tokens(s[1..])
    else
      var n := RunLength(s);
      [s[..n]] + Tokens(s[n..])
  }

  /** A text without a letter or underscore has no tokens. */
  lemma {:induction false} NoWordStartNoTokens(s: string)
    requires forall i :: 0 <= i < |s| ==> !IsWordStart(s[i])
    ensures Tokens(s) == []
    decreases |s|
  {
    if s != [] {
      NoWordStartNoTokens(s[1..]);
    }
  }

  /** `/^\d+$/.test(w)` */
  predicate AllDigits(w: string)
  {
    w != [] && forall i :: 0 <= i < |w| ==> IsDigit(w[i])
  }

  /** The filter of `extractKeywords`: longer than 3, not a common word, not only digits. */
  predicate KeepWord(w: string)
  {
    |w| > 3 && w !in CommonWords && !AllDigits(w)
  }

  /** The lower-cased token never consists of digits only, so that part of the filter never removes anything. */
  lemma DigitFilterInert(t: string)
    requires IsToken(t)
    ensures !AllDigits(Lower(t))
  {
    assert Lower(t)[0] == LowerChar(t[0]);
  }

  /** `words.map(w => w.toLowerCase())` */
  function LowerAll(words: seq<string>): (r: seq<string>)
    ensures |r| == |words| && forall k :: 0 <= k < |words| ==> r[k] == Lower(words[k])
  {
    seq(|words|, k requires 0 <= k < |words| => Lower(words[k]))
  }

  /** `words.filter(KeepWord)` */
  function KeptWords(words: seq<string>): seq<string>
  {
    if words == [] then []
    else (if KeepWord(words[0]) then [words[0]] else []) + KeptWords(words[1..])
  }

  /** The filter keeps exactly the words that pass, in their order. */
  lemma {:induction false} KeptWordsSpec(words: seq<string>)
    ensures forall w :: w in KeptWords(words) <==> w in words && KeepWord(w)
    ensures |KeptWords(words)| <= |words|
  {
    if words != [] {
      KeptWordsSpec(words[1..]);
      assert words == [words[0]] + words[1..];
    }
  }

  /** Filtering a concatenation filters each part: the order of the input is kept. */
  lemma {:induction false} KeptWordsAppend(a: seq<string>, b: seq<string>)
    ensures KeptWords(a + b) == KeptWords(a) + KeptWords(b)
  {
    if a != [] {
      assert (a + b)[1..] == a[1..] + b;
      KeptWordsAppend(a[1..], b);
    } else {
      assert a + b == b;
    }
  }

  /** `a` is `b` with some elements left out, the rest in the order of `b`. */
  predicate IsSubsequence(a: seq<string>, b: seq<string>)
    decreases |b|
  {
    if a == [] then true
    else if b == [] then false
    else (a[0] == b[0] && IsSubsequence(a[1..], b[1..])) || IsSubsequence(a, b[1..])
  }

  /** The filter only drops words: what it keeps is in the order of its input. */
  lemma {:induction false} KeptWordsSubsequence(words: seq<string>)
    ensures IsSubsequence(KeptWords(words), words)
  {
    if words != [] {
      KeptWordsSubsequence(words[1..]);
      if KeepWord(words[0]) {
        assert KeptWords(words) == [words[0]] + KeptWords(words[1..]);
        assert KeptWords(words)[1..] == KeptWords(words[1..]);
      } else {
        assert KeptWords(words) == KeptWords(words[1..]);
      }
    }
  }

  /** A prefix of a subsequence is a subsequence. */
  lemma {:induction false} PrefixSubsequence(a: seq<string>, b: seq<string>, n: nat)
    requires IsSubsequence(a, b) && n <= |a|
    ensures IsSubsequence(a[..n], b)
    decreases |b|
  {
    if n > 0 {
      if a[0] == b[0] && IsSubsequence(a[1..], b[1..]) {
        PrefixSubsequence(a[1..], b[1..], n - 1);
        assert a[..n][1..] == a[1..][..n - 1];
      } else {
        PrefixSubsequence(a, b[1..], n);
      }
    }
  }

  /** `s.slice(0, n)` */
  function Take(s: seq<string>, n: nat): (r: seq<string>)
    ensures |r| <= n && |r| <= |s| && r == s[..|r|]
    ensures |s| >= n ==> |r| == n
    ensures |s| <= n ==> r == s
  {
    if |s| <= n then s else s[..n]
  }

  /** `extractKeywords(text, language)`; the language argument is not used. */
  function ExtractKeywords(text: string): seq<string>
  {
    if text == "" then [] else Take(KeptWords(LowerAll(Tokens(text))), MaxKeywords)
  }

  /**
   * At most fifteen keywords; each is the lower case of a token of the text,
   * itself lower case, longer than three characters and not a common word;
   * they appear in the order of the lowercased tokens, and when fewer than
   * fifteen are returned, every token that passes the filter is among them.
   */
  lemma ExtractKeywordsSpec(text: string)
    ensures var keywords := ExtractKeywords(text);
      && |keywords| <= MaxKeywords
      && (forall k :: 0 <= k < |keywords| ==>
            && |keywords[k]| > 3 && keywords[k] !in CommonWords && Lower(keywords[k]) == keywords[k]
            && exists t :: t in Tokens(text) && keywords[k] == Lower(t))
      && IsSubsequence(keywords, LowerAll(Tokens(text)))
      && (|keywords| < MaxKeywords ==> forall t :: t in Tokens(text) && KeepWord(Lower(t)) ==> Lower(t) in keywords)
    ensures ExtractKeywords("") == []
  {
    var words := LowerAll(Tokens(text));
    KeptWordsSpec(words);
    var keywords := ExtractKeywords(text);
    if text != "" {
      KeptWordsSubsequence(words);
      PrefixSubsequence(KeptWords(words), words, |keywords|);
      if |keywords| < MaxKeywords {
        forall t | t in Tokens(text) && KeepWord(Lower(t))
          ensures Lower(t) in keywords
        {
          var j :| 0 <= j < |Tokens(text)| && Tokens(text)[j] == t;
          assert words[j] == Lower(t);
        }
      }
    }
    forall k | 0 <= k < |keywords|
      ensures |keywords[k]| > 3 && keywords[k] !in CommonWords && Lower(keywords[k]) == keywords[k]
      ensures exists t :: t in Tokens(text) && keywords[k] == Lower(t)
    {
      assert keywords[k] == KeptWords(words)[k];
      assert keywords[k] in KeptWords(words);
      var j :| 0 <= j < |words| && words[j] == keywords[k];
      assert Tokens(text)[j] in Tokens(text);
      LowerIdempotent(Tokens(text)[j]);
    }
  }

  // ---------------------------------------------------------------------
  // isLikelyError
  // ---------------------------------------------------------------------

  const ErrorKeywords: seq<string> :=
    ["error", "exception", "failed", "warning", "traceback", "uncaught", "undefined", "nullpointer", "segmentation fault"]

  /** The literal texts of `commonErrorPatterns`, tested case-sensitively. */
  const ErrorPatterns: seq<string> :=
    ["TypeError:", "ReferenceError:", "SyntaxError:", "ValueError:", "KeyError:", "IndexError:", "AttributeError:",
     "FileNotFoundError:"]

  /** `ps.some(p => s.includes(p))` */
  predicate ContainsAny(s: string, ps: seq<string>)
  {
    exists k | 0 <= k < |ps| :: Contains(s, ps[k])
  }

  /** `isLikelyError(text)` */
  predicate IsLikelyError(text: string)
  {
    ContainsAny(Lower(text), ErrorKeywords) || ContainsAny(text, ErrorPatterns)
  }

  /** Every error pattern is some name followed by "Error:". */
  lemma ErrorPatternsEndInError(k: nat)
    requires k < |ErrorPatterns|
    ensures |ErrorPatterns[k]| >= 6
    ensures ErrorPatterns[k] == ErrorPatterns[k][..|ErrorPatterns[k]| - 6] + "Error" + ":"
  {
  }

  /**
   * The pattern test never changes the verdict: every pattern contains
   * "Error", whose lower case is the first keyword.
   */
  lemma PatternBranchSubsumed(text: string)
    ensures IsLikelyError(text) <==> ContainsAny(Lower(text), ErrorKeywords)
  {
    if ContainsAny(text, ErrorPatterns) {
      var k :| 0 <= k < |ErrorPatterns| && Contains(text, ErrorPatterns[k]);
      var p := ErrorPatterns[k];
      ErrorPatternsEndInError(k);
      ContainsPart(text, p[..|p| - 6], "Error", ":");
      LowerContains(text, "Error");
      assert Lower("Error") == ErrorKeywords[0];
    }
  }

  // ---------------------------------------------------------------------
  // detectLanguage
  // ---------------------------------------------------------------------

  const LanguagePrefix := "language-"
  const LangPrefix := "lang-"

  /** The language one class name names: the lower-cased rest after `language-` or `lang-`. */
  function PrefixedLanguage(className: string): Option<string>
  {
    if StartsWith(className, LanguagePrefix) then Some(Lower(className[|LanguagePrefix|..]))
    else if StartsWith(className, LangPrefix) then Some(Lower(className[|LangPrefix|..]))
    else None
  }

  /** The `for (let className of classList)` scan: the first class naming a language. */
  function ClassLanguage(classes: seq<string>): Option<string>
  {
    if classes == [] then None
    else if PrefixedLanguage(classes[0]).Some? then PrefixedLanguage(classes[0])
    else ClassLanguage(classes[1..])
  }

  /** The class scan returns the language of the first class that names one, and nothing when none does. */
  lemma {:induction false} ClassLanguageFirst(classes: seq<string>)
    ensures ClassLanguage(classes).None? <==> forall k :: 0 <= k < |classes| ==> PrefixedLanguage(classes[k]).None?
    ensures ClassLanguage(classes).Some? ==>
      exists k :: 0 <= k < |classes| && ClassLanguage(classes) == PrefixedLanguage(classes[k])
              && forall j :: 0 <= j < k ==> PrefixedLanguage(classes[j]).None?
  {
    if classes != [] && PrefixedLanguage(classes[0]).None? {
      ClassLanguageFirst(classes[1..]);
      if ClassLanguage(classes).Some? {
        var k :| 0 <= k < |classes[1..]| && ClassLanguage(classes[1..]) == PrefixedLanguage(classes[1..][k])
                 && forall j :: 0 <= j < k ==> PrefixedLanguage(classes[1..][j]).None?;
        assert ClassLanguage(classes) == PrefixedLanguage(classes[k + 1]);
        forall j | 0 <= j < k + 1 ensures PrefixedLanguage(classes[j]).None? {
          if j > 0 {
            assert classes[j] == classes[1..][j - 1];
          }
        }
      }
      if forall k :: 0 <= k < |classes[1..]| ==> PrefixedLanguage(classes[1..][k]).None? {
        forall k | 0 <= k < |classes| ensures PrefixedLanguage(classes[k]).None? {
          if k > 0 {
            assert classes[k] == classes[1..][k - 1];
          }
        }
      }
    }
  }

  const JavaScriptMarkers: seq<string> := ["import React", "useState", "useEffect", "=>"]
  const PythonMarkers: seq<string> := ["def ", "import ", "print(", "class ", "self."]
  const HtmlMarkers: seq<string> := ["<div", "<span", "<html"]

  /** `/{\s*}/`: an opening brace followed, after white space only, by a closing one. */
  predicate HasEmptyBraces(code: string)
  {
    exists i, j | 0 <= i < j < |code| ::
      code[i] == '{' && code[j] == '}' && forall m :: i < m < j ==> IsJsSpace(code[m])
  }

  /** The content heuristics, tried in order. */
  function ContentLanguage(code: string): Option<string>
  {
    if ContainsAny(code, JavaScriptMarkers) then Some("javascript")
    else if ContainsAny(code, PythonMarkers) then Some("python")
    else if ContainsAny(code, HtmlMarkers) then Some("html")
    else if HasEmptyBraces(code) then Some("css")
    else None
  }

  /** A code element: its classes, the classes of its closest `pre` (if any), and its text. */
  datatype CodeElement = CodeElement(classes: seq<string>, preClasses: Option<seq<string>>, text: string)

  /** `detectLanguage(codeElement)` */
  function DetectLanguage(element: CodeElement): Option<string>
  {
    var own := ClassLanguage(element.classes);
    if own.Some? then own
    else
      var parent := if element.preClasses.Some? then ClassLanguage(element.preClasses.value) else None;
      if parent.Some? then parent
      else ContentLanguage(element.text)
  }

  /**
   * A class of the code element decides before a class of the `pre`, and
   * any class decides before the content; the content heuristics answer
   * only when no class names a language.
   */
  lemma DetectLanguagePrecedence(element: CodeElement)
    ensures (exists k :: 0 <= k < |element.classes| && PrefixedLanguage(element.classes[k]).Some?) ==>
      DetectLanguage(element) == ClassLanguage(element.classes)
    ensures ClassLanguage(element.classes).None? && element.preClasses.Some?
            && ClassLanguage(element.preClasses.value).Some? ==>
      DetectLanguage(element) == ClassLanguage(element.preClasses.value)
    ensures (forall k :: 0 <= k < |element.classes| ==> PrefixedLanguage(element.classes[k]).None?)
            && (element.preClasses.None? ||
                forall k :: 0 <= k < |element.preClasses.value| ==> PrefixedLanguage(element.preClasses.value[k]).None?) ==>
      DetectLanguage(element) == ContentLanguage(element.text)
  {
    ClassLanguageFirst(element.classes);
    if element.preClasses.Some? {
      ClassLanguageFirst(element.preClasses.value);
    }
  }

  /** The content heuristics yield one of four languages or nothing, and nothing only when no marker occurs. */
  lemma ContentLanguageValues(code: string)
    ensures ContentLanguage(code) in {None, Some("javascript"), Some("python"), Some("html"), Some("css")}
    ensures ContentLanguage(code).None? <==>
      !ContainsAny(code, JavaScriptMarkers) && !ContainsAny(code, PythonMarkers) && !ContainsAny(code, HtmlMarkers)
      && !HasEmptyBraces(code)
  {
  }

  // ---------------------------------------------------------------------
  // analyzePage
  // ---------------------------------------------------------------------

  /** `{ language, code }` */
  datatype CodeBlock = CodeBlock(language: Option<string>, code: string)

  /** The context object `analyzePage` returns. */
  datatype PageContext = PageContext(
    url: string, title: string, selectedText: string, detectedLanguage: Option<string>,
    keywords: seq<string>, codeBlocks: seq<CodeBlock>, errorMessages: seq<string>)

  /** `[...new Set(s)]`: the distinct elements, each at its first occurrence. */
  function Dedup(s: seq<string>): seq<string>
  {
    if s == [] then []
    else
      var init := Dedup(s[..|s| - 1]);
      if s[|s| - 1] in init then init else init + [s[|s| - 1]]
  }

  predicate NoDuplicates(s: seq<string>)
  {
    forall i, j :: 0 <= i < j < |s| ==> s[i] != s[j]
  }

  /**
   * Deduplication keeps exactly the elements of its input, once each, and
   * in the order of their first occurrences: deduplicating a longer list
   * only appends to the result for its prefix.
   */
  lemma {:induction false} DedupSpec(s: seq<string>)
    ensures NoDuplicates(Dedup(s))
    ensures forall x :: x in Dedup(s) <==> x in s
    decreases |s|
  {
    if s != [] {
      DedupSpec(s[..|s| - 1]);
      assert s == s[..|s| - 1] + [s[|s| - 1]];
    }
  }

  lemma {:induction false} DedupPrefix(a: seq<string>, b: seq<string>)
    ensures |Dedup(a)| <= |Dedup(a + b)| && Dedup(a) == Dedup(a + b)[..|Dedup(a)|]
    decreases |b|
  {
    if b == [] {
      assert a + b == a;
    } else {
      var init := b[..|b| - 1];
      assert (a + b)[..|a + b| - 1] == a + init;
      DedupPrefix(a, init);
      var d := Dedup(a + init);
      assert Dedup(a + b) == d || Dedup(a + b) == d + [b[|b| - 1]];
      assert Dedup(a + b)[..|d|] == d;
    }
  }

  /** A list without duplicates is its own deduplication. */
  lemma {:induction false} DedupDistinct(s: seq<string>)
    requires NoDuplicates(s)
    ensures Dedup(s) == s
    decreases |s|
  {
    if s != [] {
      var init := s[..|s| - 1];
      DedupDistinct(init);
      DedupSpec(init);
      assert s[|s| - 1] !in init;
      assert s == init + [s[|s| - 1]];
    }
  }

  /** The blocks of the code elements, in document order. */
  function CodeBlocks(elements: seq<CodeElement>): (blocks: seq<CodeBlock>)
    ensures |blocks| == |elements|
  {
    if elements == [] then []
    else
      var last := elements[|elements| - 1];
      CodeBlocks(elements[..|elements| - 1]) + [CodeBlock(DetectLanguage(last), last.text)]
  }

  /** Each block holds the language detected for its element and the element's text. */
  lemma {:induction false} CodeBlocksSpec(elements: seq<CodeElement>)
    ensures forall k :: 0 <= k < |elements| ==>
      CodeBlocks(elements)[k] == CodeBlock(DetectLanguage(elements[k]), elements[k].text)
  {
    if elements != [] {
      var init := elements[..|elements| - 1];
      CodeBlocksSpec(init);
      forall k | 0 <= k < |elements|
        ensures CodeBlocks(elements)[k] == CodeBlock(DetectLanguage(elements[k]), elements[k].text)
      {
        if k < |init| {
          assert elements[k] == init[k];
        }
      }
    }
  }

  /** The first block language that is a non-empty string. */
  function FirstLanguage(blocks: seq<CodeBlock>): (language: Option<string>)
    ensures language.None? || Present(language)
  {
    if blocks == [] then None
    else if Present(blocks[0].language) then blocks[0].language
    else FirstLanguage(blocks[1..])
  }

  /** The keywords of the code elements, element by element. */
  function CodeKeywords(elements: seq<CodeElement>): seq<string>
  {
    if elements == [] then []
    else CodeKeywords(elements[..|elements| - 1]) + ExtractKeywords(elements[|elements| - 1].text)
  }

  /** The language of the page: the first detected language, with the later ones tried only when it is absent. */
  lemma {:induction false} FirstLanguageSpec(blocks: seq<CodeBlock>)
    ensures FirstLanguage(blocks).None? <==> forall k :: 0 <= k < |blocks| ==> !Present(blocks[k].language)
    ensures FirstLanguage(blocks).Some? ==>
      exists k :: 0 <= k < |blocks| && FirstLanguage(blocks) == blocks[k].language && Present(blocks[k].language)
              && forall j :: 0 <= j < k ==> !Present(blocks[j].language)
  {
    if blocks != [] && !Present(blocks[0].language) {
      FirstLanguageSpec(blocks[1..]);
      if FirstLanguage(blocks).Some? {
        var k :| 0 <= k < |blocks[1..]| && FirstLanguage(blocks[1..]) == blocks[1..][k].language
                 && Present(blocks[1..][k].language) && forall j :: 0 <= j < k ==> !Present(blocks[1..][j].language);
        forall j | 0 <= j < k + 1 ensures !Present(blocks[j].language) {
          if j > 0 {
            assert blocks[j] == blocks[1..][j - 1];
          }
        }
        assert FirstLanguage(blocks) == blocks[k + 1].language;
      }
      if forall k :: 0 <= k < |blocks[1..]| ==> !Present(blocks[1..][k].language) {
        forall k | 0 <= k < |blocks| ensures !Present(blocks[k].language) {
          if k > 0 {
            assert blocks[k] == blocks[1..][k - 1];
          }
        }
      }
    }
  }

  /** `FirstLanguage` over a growing list of blocks, as the loop sees it. */
  lemma {:induction false} FirstLanguageAppend(blocks: seq<CodeBlock>, block: CodeBlock)
    ensures FirstLanguage(blocks + [block]) ==
      if FirstLanguage(blocks).Some? then FirstLanguage(blocks)
      else if Present(block.language) then block.language
      else None
  {
    if blocks == [] {
      assert blocks + [block] == [block];
    } else {
      assert (blocks + [block])[1..] == blocks[1..] + [block];
      FirstLanguageAppend(blocks[1..], block);
    }
  }

  /** The error messages taken from the selection: the selected text itself, when it looks like an error. */
  function SelectionErrors(selected: string): seq<string>
  {
    if selected != "" && IsLikelyError(selected) then [selected] else []
  }

  /** The trimmed error-box text, when it is non-empty and not already reported. */
  function BoxError(errorBox: Option<string>, earlier: seq<string>): Option<string>
  {
    if errorBox.Some? && Trim(errorBox.value) != "" && Trim(errorBox.value) !in earlier then Some(Trim(errorBox.value))
    else None
  }

  /** The keywords of the page before deduplication: selection, then code blocks, then error box. */
  function RawKeywords(selected: string, codeElements: seq<CodeElement>, boxError: Option<string>): seq<string>
  {
    (if selected != "" then ExtractKeywords(selected) else [])
    + CodeKeywords(codeElements)
    + (if boxError.Some? then ExtractKeywords(boxError.value) else [])
  }

  /** The `codeElements.forEach` loop of `analyzePage`: blocks, first language and keywords, in document order. */
  method ScanCodeElements(codeElements: seq<CodeElement>)
    returns (codeBlocks: seq<CodeBlock>, detectedLanguage: Option<string>, keywords: seq<string>)
    ensures codeBlocks == CodeBlocks(codeElements)
    ensures detectedLanguage == FirstLanguage(codeBlocks)
    ensures keywords == CodeKeywords(codeElements)
  {
    detectedLanguage := None;
    codeBlocks := [];
    keywords := [];
    var i := 0;
    while i < |codeElements|
      invariant 0 <= i <= |codeElements|
      invariant codeBlocks == CodeBlocks(codeElements[..i])
      invariant detectedLanguage == FirstLanguage(codeBlocks)
      invariant keywords == CodeKeywords(codeElements[..i])
    {
      var el := codeElements[i];
      var code := el.text;
      var language := DetectLanguage(el);
      FirstLanguageAppend(codeBlocks, CodeBlock(language, code));
      codeBlocks := codeBlocks + [CodeBlock(language, code)];
      if !Present(detectedLanguage) && Present(language) {
        detectedLanguage := language;
      }
      keywords := keywords + ExtractKeywords(code);
      assert codeElements[..i + 1][..i] == codeElements[..i];
      i := i + 1;
    }
    assert codeElements[..i] == codeElements;
  }

  /** Step 1 of `analyzePage`: keywords and an error message from the trimmed selection. */
  method ScanSelection(selectedText: string) returns (keywords: seq<string>, errorMessages: seq<string>)
    ensures keywords == if selectedText != "" then ExtractKeywords(selectedText) else []
    ensures errorMessages == SelectionErrors(selectedText)
  {
    keywords := [];
    errorMessages := [];
    if selectedText != "" {
      keywords := keywords + ExtractKeywords(selectedText);
      if IsLikelyError(selectedText) {
        errorMessages := errorMessages + [selectedText];
      }
    }
  }

  /** Step 3 of `analyzePage`: the error box adds its text and keywords unless it is empty or already reported. */
  method ScanErrorBox(errorBox: Option<string>, errorMessages: seq<string>, keywords: seq<string>)
    returns (newErrorMessages: seq<string>, newKeywords: seq<string>)
    ensures var boxError := BoxError(errorBox, errorMessages);
      && newErrorMessages == errorMessages + (if boxError.Some? then [boxError.value] else [])
      && newKeywords == keywords + (if boxError.Some? then ExtractKeywords(boxError.value) else [])
  {
    newKeywords := keywords;
    newErrorMessages := errorMessages;
    if errorBox.Some? {
      var errorText := Trim(errorBox.value);
      if errorText != "" && errorText !in newErrorMessages {
        newErrorMessages := newErrorMessages + [errorText];
        newKeywords := newKeywords + ExtractKeywords(errorText);
      }
    }
  }

  /**
   * `analyzePage()` over the page inputs: `selection` is the text of the
   * current selection, `codeElements` the `pre code` elements in document
   * order, and `errorBox` the text of the error box when the page has one.
   */
  method AnalyzePage(url: string, title: string, selection: string, codeElements: seq<CodeElement>,
                     errorBox: Option<string>)
    returns (context: PageContext)
    ensures context.url == url && context.title == title
    ensures context.selectedText == Trim(selection)
    ensures context.codeBlocks == CodeBlocks(codeElements)
    ensures context.detectedLanguage == FirstLanguage(CodeBlocks(codeElements))
    ensures var boxError := BoxError(errorBox, SelectionErrors(Trim(selection)));
      && context.errorMessages == SelectionErrors(Trim(selection)) + (if boxError.Some? then [boxError.value] else [])
      && context.keywords == Dedup(RawKeywords(Trim(selection), codeElements, boxError))
  {
    var selectedText := Trim(selection);
    var keywords, errorMessages := ScanSelection(selectedText);
    var codeBlocks, detectedLanguage, codeKeywords := ScanCodeElements(codeElements);
    keywords := keywords + codeKeywords;
    errorMessages, keywords := ScanErrorBox(errorBox, errorMessages, keywords);
    keywords := Dedup(keywords);
    context := PageContext(url, title, selectedText, detectedLanguage, keywords, codeBlocks, errorMessages);
  }
}
