/**
 * The shell's line tokenizer and `clamp` (src/utils.ts; the tokenizer is
 * repeated unchanged in src/Shell/service.ts).
 *
 * `Tokens` is the functional specification: it reads a line as a sequence of
 * tokens, each either a quoted token (`Quoted`) or a bare word (`Word`),
 * separated by runs of `\s`.  `Tokenize` is the source's scanner loop, proved
 * to compute `Tokens`.
 */
module Utils {
  import opened Strings

  /** `Math.max(min, Math.min(max, n))` on integers. */
  function Clamp(n: int, min: int, max: int): (r: int)
    ensures min <= max ==> min <= r <= max
    ensures min <= n <= max ==> r == n
    ensures n < min ==> r == min
    ensures min <= max < n ==> r == max
    ensures max < min ==> r == min
  {
    var low := if max < n then max else n;
    if min < low then low else min
  }

  predicate IsQuote(c: char) {
    c == '"' || c == '\''
  }

  /**
   * The body of a token opened by quote `q`, read from just after the opening
   * quote: its text and what follows the closing quote.  A backslash followed
   * by any character stands for that character; an unterminated quote runs to
   * the end of the line; a final backslash is kept.
   */
  function Quoted(s: string, q: char): (r: (string, string))
    ensures |r.1| <= |s|
    decreases |s|
  {
    if s == [] then ("", "")
    else if s[0] == '\\' && |s| > 1 then var r := Quoted(s[2..], q); ([s[1]] + r.0, r.1)
    else if s[0] == q then ("", s[1..])
    else var r := Quoted(s[1..], q); ([s[0]] + r.0, r.1)
  }

  /** A bare word: its text and the rest of the line, which is empty or starts with `\s`. */
  function Word(s: string): (r: (string, string))
    ensures |r.1| <= |s|
    ensures s != [] && !IsSpace(s[0]) ==> |r.1| < |s|
    decreases |s|
  {
    if s == [] || IsSpace(s[0]) then ("", s)
    else if s[0] == '\\' && |s| > 1 then var r := Word(s[2..]); ([s[1]] + r.0, r.1)
    else var r := Word(s[1..]); ([s[0]] + r.0, r.1)
  }

  /** The line after its leading `\s`. */
  function SkipSpace(s: string): (r: string)
    ensures |r| <= |s|
    decreases |s|
  {
    if s != [] && IsSpace(s[0]) then SkipSpace(s[1..]) else s
  }

  /** `SkipSpace` drops exactly the leading `\s` run: it is `trimStart`. */
  lemma {:induction false} SkipSpaceIsTrimStart(s: string)
    ensures SkipSpace(s) == TrimStart(s)
    ensures SkipSpace(s) == s[|s| - |SkipSpace(s)|..]
    ensures SkipSpace(s) == [] || !IsSpace(SkipSpace(s)[0])
    ensures forall k :: 0 <= k < |s| - |SkipSpace(s)| ==> IsSpace(s[k])
    decreases |s|
  {
    if s != [] && IsSpace(s[0]) {
      SkipSpaceIsTrimStart(s[1..]);
    }
  }

  /** A word stops at `\s` or the end of the line, and is non-empty when the line starts with a non-space. */
  lemma {:induction false} WordStops(s: string)
    ensures Word(s).1 == [] || IsSpace(Word(s).1[0])
    ensures s != [] && !IsSpace(s[0]) ==> Word(s).0 != ""
    decreases |s|
  {
    if s != [] && !IsSpace(s[0]) {
      if s[0] == '\\' && |s| > 1 {
        WordStops(s[2..]);
      } else {
        WordStops(s[1..]);
      }
    }
  }

  /** The tokens of a line. */
  function Tokens(s: string): seq<string>
    decreases |s|
  {
    var t := SkipSpace(s);
    if t == [] then []
    else if IsQuote(t[0]) then var r := Quoted(t[1..], t[0]); [r.0] + Tokens(r.1)
    else var r := Word(t); [r.0] + Tokens(r.1)
  }

  /** The scanner of src/utils.ts: an index moving over the line, one token per round. */
  method Tokenize(input: string) returns (tokens: seq<string>)
    ensures tokens == Tokens(input)
  {
    tokens := [];
    var i := 0;
    while i < |input|
      invariant 0 <= i <= |input|
      invariant tokens + Tokens(input[i..]) == Tokens(input)
      decreases |input| - i
    {
      ghost var start := i;
      i := ScanSpaces(input, i);
      TokensSkip(input[start..], input[i..]);
      if i >= |input| {
        break;
      }
      var buf;
      buf, i := ScanToken(input, i);
      AppendAssoc(tokens, [buf], Tokens(input[i..]));
      tokens := tokens + [buf];
    }
  }

  /** One round of the scanner: a quoted token or a bare word starting at `from`. */
  method ScanToken(input: string, from: nat) returns (buf: string, i: nat)
    requires from < |input| && !IsSpace(input[from])
    ensures from < i <= |input|
    ensures Tokens(input[from..]) == [buf] + Tokens(input[i..])
  {
    TokensStep(input, from, from);
    if input[from] == '"' || input[from] == '\'' {
      buf, i := ScanQuoted(input, from + 1, input[from]);
    } else {
      buf, i := ScanWord(input, from);
    }
  }

  /** Leading `\s` does not change the tokens. */
  lemma TokensSkip(s: string, t: string)
    requires t == SkipSpace(s)
    ensures Tokens(s) == Tokens(t)
    ensures t == [] ==> Tokens(s) == []
  {
  }

  /** `Tokens` of the rest of a line, once the scanner has skipped to position `j`. */
  lemma TokensStep(s: string, i: nat, j: nat)
    requires i <= j < |s| && s[j..] == SkipSpace(s[i..])
    ensures Tokens(s[i..]) ==
      if IsQuote(s[j]) then [Quoted(s[j + 1..], s[j]).0] + Tokens(Quoted(s[j + 1..], s[j]).1)
      else [Word(s[j..]).0] + Tokens(Word(s[j..]).1)
  {
    assert s[j..][1..] == s[j + 1..];
  }

  lemma AppendAssoc<T>(a: seq<T>, b: seq<T>, c: seq<T>)
    ensures (a + b) + c == a + (b + c)
  {
  }

  /** The loop skipping `\s` before a token. */
  method ScanSpaces(input: string, from: nat) returns (i: nat)
    requires from <= |input|
    ensures from <= i <= |input| && input[i..] == SkipSpace(input[from..])
  {
    i := from;
    while i < |input| && IsSpace(input[i])
      invariant from <= i <= |input|
      invariant SkipSpace(input[i..]) == SkipSpace(input[from..])
    {
      assert input[i..][1..] == input[i + 1..];
      i := i + 1;
    }
  }

  /** The loop reading a quoted token, starting just after the opening quote. */
  method ScanQuoted(input: string, from: nat, quote: char) returns (buf: string, i: nat)
    requires from <= |input|
    ensures from <= i <= |input|
    ensures buf == Quoted(input[from..], quote).0 && input[i..] == Quoted(input[from..], quote).1
  {
    buf := "";
    i := from;
    while i < |input|
      invariant from <= i <= |input|
      invariant buf + Quoted(input[i..], quote).0 == Quoted(input[from..], quote).0
      invariant Quoted(input[i..], quote).1 == Quoted(input[from..], quote).1
      decreases |input| - i
    {
      QuotedStep(input, i, quote);
      if input[i] == '\\' && i + 1 < |input| {
        buf := buf + [input[i + 1]];
        i := i + 2;
        continue;
      }
      if input[i] == quote {
        i := i + 1;
        return;
      }
      buf := buf + [input[i]];
      i := i + 1;
    }
  }

  /** One step of `Quoted` at position `i` of a line. */
  lemma QuotedStep(s: string, i: nat, q: char)
    requires i < |s|
    ensures Quoted(s[i..], q) ==
      if s[i] == '\\' && i + 1 < |s| then ([s[i + 1]] + Quoted(s[i + 2..], q).0, Quoted(s[i + 2..], q).1)
      else if s[i] == q then ("", s[i + 1..])
      else ([s[i]] + Quoted(s[i + 1..], q).0, Quoted(s[i + 1..], q).1)
  {
    if i + 1 < |s| {
      assert s[i..][2..] == s[i + 2..];
    }
    assert s[i..][1..] == s[i + 1..];
  }

  /** The loop reading a bare word up to the next `\s`. */
  method ScanWord(input: string, from: nat) returns (buf: string, i: nat)
    requires from <= |input|
    ensures from <= i <= |input|
    ensures buf == Word(input[from..]).0 && input[i..] == Word(input[from..]).1
  {
    buf := "";
    i := from;
    while i < |input| && !IsSpace(input[i])
      invariant from <= i <= |input|
      invariant buf + Word(input[i..]).0 == Word(input[from..]).0
      invariant Word(input[i..]).1 == Word(input[from..]).1
      decreases |input| - i
    {
      if input[i] == '\\' && i + 1 < |input| {
        assert input[i..][2..] == input[i + 2..];
        var rest := Word(input[i + 2..]);
        assert Word(input[i..]) == ([input[i + 1]] + rest.0, rest.1);
        assert buf + [input[i + 1]] + rest.0 == buf + ([input[i + 1]] + rest.0);
        buf := buf + [input[i + 1]];
        i := i + 2;
        continue;
      }
      assert input[i..][1..] == input[i + 1..];
      var rest := Word(input[i + 1..]);
      assert Word(input[i..]) == ([input[i]] + rest.0, rest.1);
      assert buf + [input[i]] + rest.0 == buf + ([input[i]] + rest.0);
      buf := buf + [input[i]];
      i := i + 1;
    }
  }

  // ---------------------------------------------------------------------------
  // Properties of the tokenizer

  /** A line has no tokens exactly when it is empty or all `\s`. */
  lemma TokensEmptyIff(s: string)
    ensures Tokens(s) == [] <==> forall k :: 0 <= k < |s| ==> IsSpace(s[k])
  {
    SkipSpaceIsTrimStart(s);
    var t := SkipSpace(s);
    if t != [] {
      assert s[|s| - |t|] == t[0];
    }
  }

  /** Every character preceded by a backslash. */
  function Escape(w: string): (r: string)
    ensures |r| == 2 * |w|
  {
    if w == [] then [] else ['\\', w[0]] + Escape(w[1..])
  }

  /** An argument written as a double-quoted token with every character escaped. */
  function QuoteArg(w: string): string {
    ['"'] + Escape(w) + ['"']
  }

  /** An argument vector written back as a line of quoted tokens separated by single spaces. */
  function RenderLine(ws: seq<string>): string
    decreases |ws|
  {
    if |ws| == 0 then "" else if |ws| == 1 then QuoteArg(ws[0]) else QuoteArg(ws[0]) + " " + RenderLine(ws[1..])
  }

  /** Inside quotes a backslash takes the next character literally, whatever it is. */
  lemma {:induction false} QuotedEscape(w: string, q: char, rest: string)
    requires IsQuote(q)
    ensures Quoted(Escape(w) + [q] + rest, q) == (w, rest)
    decreases |w|
  {
    var s := Escape(w) + [q] + rest;
    if w == [] {
      assert s == [q] + rest;
      assert s[1..] == rest;
    } else {
      assert s[0] == '\\' && s[1] == w[0];
      assert s[2..] == Escape(w[1..]) + [q] + rest;
      QuotedEscape(w[1..], q, rest);
      assert [w[0]] + w[1..] == w;
    }
  }

  /** Outside quotes a backslash takes the next character literally, including `\s` and quotes. */
  lemma {:induction false} WordEscape(w: string, rest: string)
    requires rest == [] || IsSpace(rest[0])
    ensures Word(Escape(w) + rest) == (w, rest)
    decreases |w|
  {
    var s := Escape(w) + rest;
    if w == [] {
      assert s == rest;
    } else {
      assert s[0] == '\\' && s[1] == w[0];
      assert s[2..] == Escape(w[1..]) + rest;
      WordEscape(w[1..], rest);
      assert [w[0]] + w[1..] == w;
    }
  }

  /** `Tokens` of a line opening with a quote. */
  lemma TokensQuoteStart(q: char, body: string)
    requires IsQuote(q)
    ensures Tokens([q] + body) == [Quoted(body, q).0] + Tokens(Quoted(body, q).1)
  {
    assert ([q] + body)[1..] == body;
  }

  /** `Tokens` of a line opening with a bare word. */
  lemma TokensWordStart(s: string)
    requires s != [] && !IsSpace(s[0]) && !IsQuote(s[0])
    ensures Tokens(s) == [Word(s).0] + Tokens(Word(s).1)
  {
  }

  /** A space before the rest of a line does not change its tokens. */
  lemma TokensSpace(rest: string)
    ensures Tokens(" " + rest) == Tokens(rest)
  {
    assert (" " + rest)[1..] == rest;
  }

  /** A quoted, escaped argument is read back as exactly that argument. */
  lemma QuoteArgToken(w: string, rest: string)
    ensures Tokens(QuoteArg(w) + rest) == [w] + Tokens(Quoted(Escape(w) + ['"'] + rest, '"').1)
    ensures Quoted(Escape(w) + ['"'] + rest, '"').1 == rest
  {
    var s := QuoteArg(w) + rest;
    assert s[1..] == Escape(w) + ['"'] + rest;
    QuotedEscape(w, '"', rest);
  }

  /**
   * Round trip: rendering any argument vector as quoted, escaped tokens and
   * tokenizing the line gives the vector back, empty arguments included.
   */
  lemma {:induction false} TokensRenderLine(ws: seq<string>)
    ensures Tokens(RenderLine(ws)) == ws
    decreases |ws|
  {
    if |ws| == 1 {
      QuoteArgToken(ws[0], "");
      assert QuoteArg(ws[0]) + "" == QuoteArg(ws[0]);
    } else if |ws| > 1 {
      var rest := RenderLine(ws[1..]);
      assert RenderLine(ws) == QuoteArg(ws[0]) + (" " + rest);
      QuoteArgToken(ws[0], " " + rest);
      TokensSpace(rest);
      TokensRenderLine(ws[1..]);
      assert [ws[0]] + ws[1..] == ws;
    }
  }

  /** Outside quotes, escaping every character makes any non-empty text one token. */
  lemma EscapedWordToken(w: string)
    requires w != []
    ensures Tokens(Escape(w)) == [w]
  {
    WordEscape(w, "");
    assert Escape(w) + "" == Escape(w);
    assert Escape(w)[0] == '\\';
  }

  /** A character that neither separates tokens nor escapes. */
  predicate Ordinary(c: char) {
    !IsSpace(c) && c != '\\'
  }

  /** A word of ordinary characters is read as it is; quotes after its first character are ordinary. */
  lemma {:induction false} WordPlain(w: string, rest: string)
    requires forall k :: 0 <= k < |w| ==> Ordinary(w[k])
    requires rest == [] || IsSpace(rest[0])
    ensures Word(w + rest) == (w, rest)
    decreases |w|
  {
    if w == [] {
      assert w + rest == rest;
    } else {
      assert (w + rest)[1..] == w[1..] + rest;
      WordPlain(w[1..], rest);
      assert [w[0]] + w[1..] == w;
    }
  }

  /** A bare word: ordinary characters, not opening with a quote. */
  predicate PlainWord(w: string) {
    w != [] && !IsQuote(w[0]) && forall k :: 0 <= k < |w| ==> Ordinary(w[k])
  }

  /** Letters, digits, `.`, `-`, `_` and `/`: the characters of command and file names. */
  predicate NameChar(c: char) {
    'a' <= c <= 'z' || 'A' <= c <= 'Z' || '0' <= c <= '9' || c == '.' || c == '-' || c == '_' || c == '/'
  }

  /** A non-empty run of name characters is a bare word. */
  lemma NameWordPlain(w: string)
    requires w != [] && forall c :: c in w ==> NameChar(c)
    ensures PlainWord(w)
  {
    assert forall k :: 0 <= k < |w| ==> w[k] in w;
  }

  /** A single name is read as one token. */
  lemma TokensOneName(a: string)
    requires a != [] && forall c :: c in a ==> NameChar(c)
    ensures Tokens(a) == [a]
  {
    NameWordPlain(a);
    TokensJoinPlain([a]);
  }

  /** Two names separated by a space are read as two tokens. */
  lemma TokensTwoNames(a: string, b: string)
    requires a != [] && forall c :: c in a ==> NameChar(c)
    requires b != [] && forall c :: c in b ==> NameChar(c)
    ensures Tokens(a + " " + b) == [a, b]
  {
    NameWordPlain(a);
    NameWordPlain(b);
    TokensJoinPlain([a, b]);
    JoinCons(a, [b], " ");
  }

  /** Joining plain words with single spaces and tokenizing gives the words back. */
  lemma TokensJoinPlain(ws: seq<string>)
    requires forall k :: 0 <= k < |ws| ==> PlainWord(ws[k])
    ensures Tokens(Join(ws, " ")) == ws
  {
    TokensJoinPlainSpaced(ws, "");
    assert Join(ws, " ") + "" == Join(ws, " ");
  }

  /** Plain words joined by single spaces and followed by any run of whitespace tokenize back to themselves. */
  lemma {:induction false} TokensJoinPlainSpaced(ws: seq<string>, tail: string)
    requires forall k :: 0 <= k < |ws| ==> PlainWord(ws[k])
    requires forall k :: 0 <= k < |tail| ==> IsSpace(tail[k])
    ensures Tokens(Join(ws, " ") + tail) == ws
    decreases |ws|
  {
    if |ws| == 0 {
      assert Join(ws, " ") + tail == tail;
      TokensEmptyIff(tail);
    } else if |ws| == 1 {
      assert Join(ws, " ") + tail == ws[0] + tail;
      WordPlain(ws[0], tail);
      TokensWordStart(ws[0] + tail);
      TokensEmptyIff(tail);
    } else {
      var rest := Join(ws[1..], " ") + tail;
      var line := ws[0] + (" " + rest);
      assert [ws[0]] + ws[1..] == ws;
      JoinCons(ws[0], ws[1..], " ");
      assert Join(ws, " ") + tail == line;
      WordPlain(ws[0], " " + rest);
      assert line[0] == ws[0][0];
      TokensWordStart(line);
      TokensSpace(rest);
      TokensJoinPlainSpaced(ws[1..], tail);
    }
  }

  /** Plain words with one more plain word appended, joined with spaces, tokenize back to themselves. */
  lemma TokensSnoc(init: seq<string>, w: string)
    requires forall k :: 0 <= k < |init| ==> PlainWord(init[k])
    requires PlainWord(w)
    ensures Tokens(Join(init + [w], " ")) == init + [w]
  {
    var ws := init + [w];
    forall k | 0 <= k < |ws|
      ensures PlainWord(ws[k])
    {
      if k < |init| {
        assert ws[k] == init[k];
      }
    }
    TokensJoinPlain(ws);
  }

  /** A quoted text free of its quote and of backslashes: closed or not, it is read as it is. */
  lemma {:induction false} QuotedPlain(a: string, q: char, rest: string)
    requires IsQuote(q)
    requires forall k :: 0 <= k < |a| ==> a[k] != q && a[k] != '\\'
    ensures Quoted(a + [q] + rest, q) == (a, rest)
    ensures Quoted(a, q) == (a, "")
    decreases |a|
  {
    if a == [] {
      assert a + [q] + rest == [q] + rest;
      assert ([q] + rest)[1..] == rest;
    } else {
      assert (a + [q] + rest)[1..] == a[1..] + [q] + rest;
      QuotedPlain(a[1..], q, rest);
      assert [a[0]] + a[1..] == a;
    }
  }

  /** The closing quote ends the token even when a non-space follows it: `"a"b` is `a`, `b`. */
  lemma ClosingQuoteEndsToken(q: char, a: string, b: string)
    requires IsQuote(q)
    requires forall k :: 0 <= k < |a| ==> a[k] != q && a[k] != '\\'
    ensures Tokens([q] + a + [q] + b) == [a] + Tokens(b)
  {
    assert [q] + a + [q] + b == [q] + (a + [q] + b);
    TokensQuoteStart(q, a + [q] + b);
    QuotedPlain(a, q, b);
  }

  /** An unterminated quote is no error: the token runs to the end of the line. */
  lemma UnterminatedQuote(q: char, a: string)
    requires IsQuote(q)
    requires forall k :: 0 <= k < |a| ==> a[k] != q && a[k] != '\\'
    ensures Tokens([q] + a) == [a]
  {
    TokensQuoteStart(q, a);
    QuotedPlain(a, q, "");
  }

  /** A backslash that ends the line is kept as a literal backslash, outside or inside quotes. */
  lemma TrailingBackslash(w: string, q: char, a: string)
    requires forall k :: 0 <= k < |w| ==> Ordinary(w[k])
    requires w == [] || !IsQuote(w[0])
    requires IsQuote(q)
    requires forall k :: 0 <= k < |a| ==> a[k] != q && a[k] != '\\'
    ensures Tokens(w + "\\") == [w + "\\"]
    ensures Tokens([q] + a + "\\") == [a + "\\"]
  {
    WordTrailingBackslash(w);
    assert (w + "\\")[0] == if w == [] then '\\' else w[0];
    TokensWordStart(w + "\\");
    QuotedTrailingBackslash(a, q);
    assert [q] + a + "\\" == [q] + (a + "\\");
    TokensQuoteStart(q, a + "\\");
  }

  lemma {:induction false} WordTrailingBackslash(w: string)
    requires forall k :: 0 <= k < |w| ==> Ordinary(w[k])
    ensures Word(w + "\\") == (w + "\\", "")
    decreases |w|
  {
    if w == [] {
      var s := w + "\\";
      assert s == ['\\'] && !IsSpace(s[0]) && s[1..] == [];
      assert Word(s[1..]) == ("", "");
      assert [s[0]] + "" == s;
    } else {
      assert (w + "\\")[1..] == w[1..] + "\\";
      WordTrailingBackslash(w[1..]);
      assert [w[0]] + (w[1..] + "\\") == w + "\\";
    }
  }

  lemma {:induction false} QuotedTrailingBackslash(a: string, q: char)
    requires forall k :: 0 <= k < |a| ==> a[k] != q && a[k] != '\\'
    requires q != '\\'
    ensures Quoted(a + "\\", q) == (a + "\\", "")
    decreases |a|
  {
    if a == [] {
      var s := a + "\\";
      assert s == ['\\'] && s[1..] == [];
      assert Quoted(s[1..], q) == ("", "");
      assert [s[0]] + "" == s;
    } else {
      assert (a + "\\")[1..] == a[1..] + "\\";
      QuotedTrailingBackslash(a[1..], q);
      assert [a[0]] + (a[1..] + "\\") == a + "\\";
    }
  }

  /** What `Word` leaves is the tail of its input. */
  lemma {:induction false} WordSuffix(s: string)
    ensures Word(s).1 == s[|s| - |Word(s).1|..]
    decreases |s|
  {
    if s != [] && !IsSpace(s[0]) {
      if s[0] == '\\' && |s| > 1 {
        WordSuffix(s[2..]);
      } else {
        WordSuffix(s[1..]);
      }
    }
  }

  /** The tokens of a line whose first token is a bare word: that word, then the rest. */
  lemma TokensFirstWord(s: string)
    requires SkipSpace(s) != [] && !IsQuote(SkipSpace(s)[0])
    ensures Tokens(s) == [Word(SkipSpace(s)).0] + Tokens(Word(SkipSpace(s)).1)
    ensures Word(SkipSpace(s)).0 != ""
    ensures Word(SkipSpace(s)).1 == s[|s| - |Word(SkipSpace(s)).1|..]
  {
    WordSuffix(SkipSpace(s));
    WordStops(SkipSpace(s));
  }

  /** Only a quote yields an empty token: a line without quotes gives non-empty tokens. */
  lemma {:induction false} QuoteFreeTokensNonEmpty(s: string)
    requires QuoteFree(s)
    ensures forall k :: 0 <= k < |Tokens(s)| ==> Tokens(s)[k] != ""
    decreases |s|
  {
    var t := SkipSpace(s);
    if t != [] {
      assert !IsQuote(t[0]) by {
        SkipSpaceIsTrimStart(s);
        assert t[0] == s[|s| - |t|];
      }
      TokensFirstWord(s);
      var r := Word(t);
      QuoteFreeSuffix(s, |s| - |r.1|);
      QuoteFreeTokensNonEmpty(r.1);
      var ts := Tokens(r.1);
      assert Tokens(s) == [r.0] + ts;
      assert forall k :: 1 <= k < |Tokens(s)| ==> Tokens(s)[k] == ts[k - 1];
    }
  }

  predicate QuoteFree(s: string) {
    forall k :: 0 <= k < |s| ==> !IsQuote(s[k])
  }

  lemma QuoteFreeSuffix(s: string, i: nat)
    requires QuoteFree(s) && i <= |s|
    ensures QuoteFree(s[i..])
  {
    assert forall k :: 0 <= k < |s| - i ==> s[i..][k] == s[i + k];
  }

  /** The tokenizer's examples: escapes and quotes, a glued closing quote, the empty quoted token. */
  lemma TokensExamples(line: string, glued: string, empty: string)
    requires line == "echo \"a b\" c\\ d"
    requires glued == "\"a\"b"
    requires empty == "\"\""
    ensures Tokens(line) == ["echo", "a b", "c d"]
    ensures Tokens(glued) == ["a", "b"]
    ensures Tokens(empty) == [""]
  {
    EchoExample(line);
    GluedExample(glued);
    assert empty == ['"'] + "" + ['"'] + "";
    ClosingQuoteEndsToken('"', "", "");
  }

  lemma EchoExample(line: string)
    requires line == "echo \"a b\" c\\ d"
    ensures Tokens(line) == ["echo", "a b", "c d"]
  {
    var quoted := ['"'] + "a b" + ['"'] + (" " + EscapedTail);
    QuotedTailExample(quoted);
    assert line == "echo" + (" " + quoted);
    WordPlain("echo", " " + quoted);
    TokensWordStart(line);
    TokensSpace(quoted);
  }

  /** `c\ d`: an escaped space inside a bare word. */
  const EscapedTail: string := ['c', '\\', ' ', 'd']

  lemma EscapedTailExample()
    ensures Tokens(EscapedTail) == ["c d"]
  {
    var tail := EscapedTail;
    assert tail == ['c', '\\', ' ', 'd'];
    assert Word(tail) == ("c d", "") by {
      var esc := ['\\', ' ', 'd'];
      WordPlain("d", "");
      assert "d" + "" == "d";
      assert esc[2..] == "d" && esc[0] == '\\' && !IsSpace(esc[0]);
      assert |esc| > 1 && Word(esc[2..]) == ("d", "");
      assert Word(esc) == ([esc[1]] + "d", "");
      assert [esc[1]] + "d" == " d";
      assert tail[1..] == esc && !IsSpace(tail[0]) && tail[0] != '\\';
      assert Word(tail) == ([tail[0]] + " d", "");
      assert [tail[0]] + " d" == "c d";
    }
    TokensWordStart(tail);
  }

  lemma QuotedTailExample(quoted: string)
    requires quoted == ['"'] + "a b" + ['"'] + (" " + EscapedTail)
    ensures Tokens(quoted) == ["a b", "c d"]
  {
    EscapedTailExample();
    TokensSpace(EscapedTail);
    ClosingQuoteEndsToken('"', "a b", " " + EscapedTail);
  }

  lemma GluedExample(glued: string)
    requires glued == "\"a\"b"
    ensures Tokens(glued) == ["a", "b"]
  {
    assert glued == ['"'] + "a" + ['"'] + "b";
    ClosingQuoteEndsToken('"', "a", "b");
    TokensJoinPlain(["b"]);
    assert Join(["b"], " ") == "b";
  }
}
