/** The price extractor (src/features/scraper/extractor.ts): builds the prompt
    from the page text, asks the language model, and turns its reply into a
    price or a reason. The model call, `JSON.parse` and `parseFloat` are
    parameters of the model: they are outside code. */
module Extractor {
  import opened Common

  /** The fixed instruction text that starts every prompt, line by line. */
  const PromptLines: seq<string> := [
    "You are a price extraction assistant. Extract the main product price from the following webpage content.\n",
    "\n",
    "Rules:\n",
    "1. Find the PRIMARY selling price (not crossed-out prices, not \"was\" prices)\n",
    "2. Return the numeric price value without currency symbols\n",
    "3. If multiple prices exist, choose the main/current price\n",
    "\n",
    "Return ONLY a valid JSON object in this exact format:\n",
    "{\"price\": number or null, \"error\": \"reason\" or null}\n",
    "\n",
    "Example responses:\n",
    "{\"price\": 299.99, \"error\": null}\n",
    "{\"price\": null, \"error\": \"No price found on page\"}\n",
    "Webpage content:\n"
  ]

  const ExtractionPrompt: string :=
    PromptLines[0] + PromptLines[1] + PromptLines[2] + PromptLines[3] + PromptLines[4]
    + PromptLines[5] + PromptLines[6] + PromptLines[7] + PromptLines[8] + PromptLines[9]
    + PromptLines[10] + PromptLines[11] + PromptLines[12] + PromptLines[13]

  /** At most this many characters of page text reach the model. */
  const MaxContentLength: nat := 15000

  const HintPrefix: string := "\nProduct we're looking for: "

  const InvalidResponseFormat: string := "Invalid response format"

  /** `{price, error}` as the extractor returns it; an absent error is `None`. */
  datatype ExtractedPrice = ExtractedPrice(price: Option<JsNumber>, error: Option<string>)

  /** The `price` member of the parsed reply, as JSON can give it. A
      composite value carries what `String(value)` makes of it. */
  datatype JsonValue = JUndefined | JNull | JBool(b: bool) | JNumber(n: real) | JString(s: string) | JComposite(text: string)

  /** The object `JSON.parse` makes of the reply's brace span; its `error`
      member is a string or absent. */
  datatype ParsedReply = ParsedReply(price: JsonValue, error: Option<string>)

  /** The hint appended after the instructions: empty unless the product
      name is a non-empty string. */
  function ContextHint(productName: Option<string>): (h: string)
    ensures h == "" <==> !Truthy(productName)
    ensures Truthy(productName) ==> |h| == |HintPrefix| + |productName.value| + 1
    ensures Truthy(productName) ==>
      (h[..|HintPrefix|] == HintPrefix && h[|HintPrefix|..|h| - 1] == productName.value && h[|h| - 1] == '\n')
  {
    if Truthy(productName) then HintPrefix + productName.value + "\n" else ""
  }

  /** `pageContent.slice(0, 15000)`. */
  function Truncated(content: string): (t: string)
    ensures |t| == Min(MaxContentLength, |content|)
    ensures t <= content
  {
    if |content| <= MaxContentLength then content else content[..MaxContentLength]
  }

  /** The text sent to the model: the instructions, the hint, then the page
      text cut to its first 15000 characters. */
  function Prompt(content: string, productName: Option<string>): (p: string)
  {
    PromptFrom(ExtractionPrompt, content, productName)
  }

  /** `Prompt` over any instruction text. */
  function PromptFrom(instructions: string, content: string, productName: Option<string>): string {
    instructions + ContextHint(productName) + Truncated(content)
  }

  /** The prompt is the instructions, then the hint, then exactly the first
      `min(15000, |content|)` characters of the page text. */
  lemma PromptShape(instructions: string, content: string, productName: Option<string>)
    ensures var p := PromptFrom(instructions, content, productName);
      var n := Min(MaxContentLength, |content|);
      && |p| == |instructions| + |ContextHint(productName)| + n
      && p[..|instructions|] == instructions
      && p[|instructions|..|p| - n] == ContextHint(productName)
      && p[|p| - n..] == content[..n]
  {
    var p := PromptFrom(instructions, content, productName);
    var n := Min(MaxContentLength, |content|);
    assert p[..|instructions|] == instructions;
    assert p[|instructions|..|p| - n] == ContextHint(productName);
    assert p[|p| - n..] == Truncated(content);
  }

  /** The characters `String.prototype.trim` removes: the Unicode space
      separators, tab, vertical tab, form feed, the byte order mark and the
      line terminators. */
  predicate IsJsWhitespace(c: char) {
    var n := c as int;
    || (9 <= n <= 13) || n == 32 || n == 0xA0 || n == 0x1680
    || (0x2000 <= n <= 0x200A) || n == 0x2028 || n == 0x2029
    || n == 0x202F || n == 0x205F || n == 0x3000 || n == 0xFEFF
  }

  /** Number of whitespace characters at the start of `s`. */
  function LeadingSpace(s: string): (n: nat)
    ensures n <= |s|
    ensures forall k :: 0 <= k < n ==> IsJsWhitespace(s[k])
    ensures n < |s| ==> !IsJsWhitespace(s[n])
  {
    if s == [] || !IsJsWhitespace(s[0]) then 0 else 1 + LeadingSpace(s[1..])
  }

  /** Number of whitespace characters at the end of `s`. */
  function TrailingSpace(s: string): (n: nat)
    ensures n <= |s|
    ensures forall k :: |s| - n <= k < |s| ==> IsJsWhitespace(s[k])
    ensures n < |s| ==> !IsJsWhitespace(s[|s| - n - 1])
  {
    if s == [] || !IsJsWhitespace(s[|s| - 1]) then 0 else 1 + TrailingSpace(s[..|s| - 1])
  }

  /** `t` is `s` with the whitespace run before position `lo` and the one
      after `t` removed. */
  predicate TrimmedAt(s: string, t: string, lo: int) {
    && 0 <= lo && lo + |t| <= |s| && s[lo..lo + |t|] == t
    && (forall k :: 0 <= k < lo ==> IsJsWhitespace(s[k]))
    && (forall k :: lo + |t| <= k < |s| ==> IsJsWhitespace(s[k]))
  }

  /** `String.prototype.trim`: the part of `s` between its leading and
      trailing whitespace, which neither starts nor ends with whitespace. */
  function Trim(s: string): (t: string)
    ensures TrimmedAt(s, t, LeadingSpace(s))
    ensures t != [] ==> !IsJsWhitespace(t[0]) && !IsJsWhitespace(t[|t| - 1])
  {
    var lo := LeadingSpace(s);
    var rest := s[lo..];
    var t := rest[..|rest| - TrailingSpace(rest)];
    assert s[lo..lo + |t|] == t;
    t
  }

  /** Trimming twice is trimming once. */
  lemma TrimIdempotent(s: string)
    ensures Trim(Trim(s)) == Trim(s)
  {
    var t := Trim(s);
    if t != [] {
      assert LeadingSpace(t) == 0;
      assert TrailingSpace(t[0..]) == 0 by {
        assert t[0..] == t;
      }
      assert t[0..][..|t|] == t;
    }
  }

  /** Position `i` opens and the later position `j` closes a candidate span
      of the pattern `\{[\s\S]*\}`. */
  predicate IsSpan(t: string, i: int, j: int) {
    0 <= i < j < |t| && t[i] == '{' && t[j] == '}'
  }

  /** Position of the last occurrence of `c` in `t`. */
  function LastIndexOf(t: string, c: char): (r: Option<nat>)
    ensures r.None? ==> forall k :: 0 <= k < |t| ==> t[k] != c
    ensures r.Some? ==> r.value < |t| && t[r.value] == c
    ensures r.Some? ==> forall k :: r.value < k < |t| ==> t[k] != c
  {
    if t == [] then None
    else if t[|t| - 1] == c then Some(|t| - 1)
    else LastIndexOf(t[..|t| - 1], c)
  }

  /** The match of `/\{[\s\S]*\}/` in `t`, as a pair of inclusive positions:
      the regex search takes the leftmost `{` that some later `}` follows and
      the greedy `[\s\S]*` then reaches the last `}`. */
  function BraceSpan(t: string): (r: Option<(nat, nat)>)
    ensures r.None? <==> forall i, j :: !IsSpan(t, i, j)
    ensures r.Some? ==> IsSpan(t, r.value.0, r.value.1)
    ensures r.Some? ==> forall i, j :: IsSpan(t, i, j) ==> r.value.0 <= i && j <= r.value.1
  {
    var first, last := FindIndex(t, (x: char) => x == '{'), LastIndexOf(t, '}');
    if first.Some? && last.Some? && first.value < last.value then
      assert IsSpan(t, first.value, last.value);
      Some((first.value, last.value))
    else None
  }

  /** `String(value)` for the values that are neither null nor numbers. */
  function JsonToString(v: JsonValue): string
    requires !v.JNull? && !v.JNumber?
  {
    match v
    case JUndefined => "undefined"
    case JBool(b) => if b then "true" else "false"
    case JString(s) => s
    case JComposite(text) => text
  }

  /** The price member after coercion: null stays null, a number stays
      itself, anything else goes through `parseFloat(String(value))`. */
  function CoercePrice(v: JsonValue, parseFloat: string -> JsNumber): (p: Option<JsNumber>)
    ensures p.None? <==> v.JNull?
    ensures v.JNumber? ==> p == Some(Num(v.n))
    ensures !v.JNull? && !v.JNumber? ==> p == Some(parseFloat(JsonToString(v)))
  {
    match v
    case JNull => None
    case JNumber(n) => Some(Num(n))
    case _ => Some(parseFloat(JsonToString(v)))
  }

  /** `parsed.error || undefined`. */
  function ErrorOrUndefined(e: Option<string>): (r: Option<string>)
    ensures r.Some? <==> Truthy(e)
    ensures r.Some? ==> r == e
  {
    if Truthy(e) then e else None
  }

  /** `text.trim().match(/\{[\s\S]*\}/)`: the part of the trimmed reply
      from its first `{` to its last `}`, if the first comes before the last. */
  function JsonText(reply: string): (r: Option<string>)
    ensures r.None? <==> BraceSpan(Trim(reply)).None?
    ensures r.Some? ==> |r.value| >= 2 && r.value[0] == '{' && r.value[|r.value| - 1] == '}'
    ensures r.Some? ==> OccursAt(Trim(reply), r.value, BraceSpan(Trim(reply)).value.0)
    ensures r.Some? ==> |r.value| == BraceSpan(Trim(reply)).value.1 - BraceSpan(Trim(reply)).value.0 + 1
  {
    var text := Trim(reply);
    match BraceSpan(text)
    case None => None
    case Some(span) => Some(text[span.0..span.1 + 1])
  }

  /** What the extractor makes of a reply the model did return. */
  function ReadReply(reply: string, jsonParse: string -> Outcome<ParsedReply>,
                     parseFloat: string -> JsNumber): (r: ExtractedPrice)
    ensures JsonText(reply).None? ==> r == ExtractedPrice(None, Some(InvalidResponseFormat))
    ensures JsonText(reply).Some? && jsonParse(JsonText(reply).value).Threw? ==>
      r == ExtractedPrice(None, Some(ErrorMessage(jsonParse(JsonText(reply).value).thrown)))
    ensures JsonText(reply).Some? && jsonParse(JsonText(reply).value).Returned? ==>
      var parsed := jsonParse(JsonText(reply).value).value;
      r.price == CoercePrice(parsed.price, parseFloat) && r.error == ErrorOrUndefined(parsed.error)
    ensures r.price.Some? ==> JsonText(reply).Some? && jsonParse(JsonText(reply).value).Returned?
  {
    match JsonText(reply)
    case None => ExtractedPrice(None, Some(InvalidResponseFormat))
    case Some(json) =>
      match jsonParse(json)
      case Threw(e) => ExtractedPrice(None, Some(ErrorMessage(e)))
      case Returned(parsed) => ExtractedPrice(CoercePrice(parsed.price, parseFloat), ErrorOrUndefined(parsed.error))
  }

  /** `extractPrice`: prompt the model with the page text and read its reply;
      whatever the model call throws becomes the error message. */
  function ExtractPrice(content: string, productName: Option<string>,
                        generate: string -> Outcome<string>,
                        jsonParse: string -> Outcome<ParsedReply>,
                        parseFloat: string -> JsNumber): (r: ExtractedPrice)
    ensures generate(Prompt(content, productName)).Threw? ==>
      r == ExtractedPrice(None, Some(ErrorMessage(generate(Prompt(content, productName)).thrown)))
    ensures generate(Prompt(content, productName)).Returned? ==>
      r == ReadReply(generate(Prompt(content, productName)).value, jsonParse, parseFloat)
    ensures r.price.Some? ==> generate(Prompt(content, productName)).Returned?
  {
    match generate(Prompt(content, productName))
    case Threw(e) => ExtractedPrice(None, Some(ErrorMessage(e)))
    case Returned(reply) => ReadReply(reply, jsonParse, parseFloat)
  }

  /** Only the first 15000 characters of the page text matter: two pages that
      agree on them get the same answer. */
  lemma OnlyPrefixMatters(c1: string, c2: string, productName: Option<string>,
                          generate: string -> Outcome<string>,
                          jsonParse: string -> Outcome<ParsedReply>,
                          parseFloat: string -> JsNumber)
    requires |c1| >= MaxContentLength && |c2| >= MaxContentLength
    requires c1[..MaxContentLength] == c2[..MaxContentLength]
    ensures Prompt(c1, productName) == Prompt(c2, productName)
    ensures ExtractPrice(c1, productName, generate, jsonParse, parseFloat)
         == ExtractPrice(c2, productName, generate, jsonParse, parseFloat)
  {
    assert Truncated(c1) == Truncated(c2);
  }

  /** A reply that is a bare object (no surrounding whitespace) is parsed whole. */
  lemma BareObjectParsedWhole(reply: string)
    requires |reply| >= 2 && reply[0] == '{' && reply[|reply| - 1] == '}'
    ensures Trim(reply) == reply
    ensures BraceSpan(Trim(reply)) == Some((0, |reply| - 1))
    ensures JsonText(reply) == Some(reply)
  {
    assert LeadingSpace(reply) == 0;
    assert reply[0..] == reply;
    assert TrailingSpace(reply) == 0;
    assert IsSpan(reply, 0, |reply| - 1);
    assert reply[0..|reply|] == reply;
  }

  /** A leading prose sentence and trailing text without braces do not change
      what is parsed: the span is the object itself. */
  lemma SpanSkipsBracelessProse(before: string, obj: string, after: string)
    requires |obj| >= 2 && obj[0] == '{' && obj[|obj| - 1] == '}'
    requires forall k :: 0 <= k < |before| ==> before[k] != '{' && before[k] != '}'
    requires forall k :: 0 <= k < |after| ==> after[k] != '{' && after[k] != '}'
    ensures BraceSpan(before + obj + after) == Some((|before|, |before| + |obj| - 1))
  {
    var t := before + obj + after;
    var i, j := |before|, |before| + |obj| - 1;
    assert IsSpan(t, i, j);
    assert forall k :: 0 <= k < |before| ==> t[k] == before[k];
    assert forall k :: |before| + |obj| <= k < |t| ==> t[k] == after[k - |before| - |obj|];
  }
}
