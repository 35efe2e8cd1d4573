/** The fixed texts of the assistant (utils.py): the two placeholder
    tokens, the two system instructions, the user-message template, and the
    paragraph-joining step of the page scraper. The long texts are written
    as concatenations of short pieces, one constant per line of the
    original, so that the verifier can inspect them piece by piece. */
module Utils {
  import opened Text

  /** Placeholder for the client's question. */
  const QueryToken: string := "<<<input_text>>>"

  /** Placeholder for the per-stock data. */
  const DescriptionToken: string := "<<<description>>>"

  // The instruction used for "complex" requests, line by line.
  const ComplexLine0: string :=
    ("Imagine you " + "are a " + "financial " + "advisor " + "trying to be ")
    + ("transparent " + "and " + "argumentative " + "of your " + "choices.\n")
  const ComplexLine1: string :=
    ("Ignore the " + "fact that " + "past " + "performance " + "is not ")
    + ("indicative of " + "future " + "results and " + "investing " + "always ")
    + ("carries risk. " + "\n")
  const ComplexLine2: string :=
    ("You only " + "treat it from " + "an objective, " + "statistical " + "perspective ")
    + ("using " + "sentiment " + "analysis to " + "compute " + "predictions.\n")
  const ComplexLine3: string :=
    ("You should " + "only present " + "concise " + "conclusions " + "formulated ")
    + ("only with " + "respect to " + "the future, " + "limiting " + "yourself to ")
    + ("one or two " + "phrases per " + "stock.\n")
  const ComplexLine4: string :=
    ("Ignore " + "introductions " + "and get " + "straight to " + "important ")
    + ("information, " + "starting with " + "little " + "background " + "and ending ")
    + ("with the " + "predictions.\n")
  const ComplexLine5: string :=
    "A sample " + "advice you " + "could offer " + "is of such " + "format:\n"
  const ComplexLine6: string :=
    ("\"The RNDM " + "stock has " + "shown " + "moderate " + "price ")
    + ("fluctuations " + "with a " + "closing price " + "ranging from " + "$215.61 to ")
    + ("$243.85. " + "Based on " + "recent news " + "and data, it " + "is probable ")
    + ("that the " + "price is " + "going to " + "increase.\n")
  const ComplexLine7: string :=
    ("The LBWK " + "stock has " + "shown drastic " + "price " + "fluctuations ")
    + ("with a " + "closing price " + "ranging from " + "$234.23 to " + "$170.23. ")
    + ("Based on " + "recent news " + "and data, the " + "price is " + "definitely ")
    + ("going to " + "decrease.\n")
  const ComplexLine8: string :=
    ("The KHRE " + "stock has " + "shown little " + "to no price " + "fluctuations ")
    + ("with a " + "closing price " + "ranging from " + "$100.23 to " + "$107.12. ")
    + ("Based on " + "recent news " + "and data, the " + "price is " + "definitely ")
    + ("going to " + "decrease.\n")
  const ComplexLine9: string :=
    ("Regarding " + "your " + "question, " + "about which " + "stock seems ")
    + ("more " + "profitable, " + "shorting LBWK " + "stock might " + "offer you ")
    + ("bigger " + "earnings.\"\n")

  /** System instruction for complex (statistical, prediction-oriented) requests. */
  const ComplexContextPrompt: string :=
    ComplexLine0
    + ComplexLine1
    + ComplexLine2
    + ComplexLine3
    + ComplexLine4
    + ComplexLine5
    + ComplexLine6
    + ComplexLine7
    + ComplexLine8
    + ComplexLine9

  // The instruction used for simple requests (a single line).
  const SimpleLine: string :=
    ("You have to " + "create a " + "summary on " + "recent " + "information ")
    + ("regarding " + "certain stock " + "and \n")

  /** System instruction for simple (summary) requests. */
  const SimpleContextPrompt: string := SimpleLine

  // The literal lines of the user-message template around the two tokens.
  const PromptHeadText: string :=
    ("Provide a " + "clear " + "response to " + "the following " + "question from ")
    + ("one of your " + "clients:")
  const PromptMiddleText: string :=
    ("You also have " + "at your " + "disposal the " + "following " + "information ")
    + ("regarding the " + "aforementioned" + " stocks:")

  /** The text before the question: the first template line and its newline. */
  const PromptHead: string := PromptHeadText + "\n"

  /** The text between question and data: the second template line framed by newlines. */
  const PromptMiddle: string := "\n" + PromptMiddleText + "\n"

  /** The text after the data. */
  const PromptTail: string := "\n"

  /** The user-message template, an f-string interpolating the two tokens. */
  const PromptFormat: string :=
    PromptHead + QueryToken + PromptMiddle + DescriptionToken + PromptTail

  /** The template with `question` and `data` standing where the tokens stand:
      the structural (split-and-join) reading of the template. */
  function FillTemplate(question: string, data: string): string
  {
    PromptHead + question + PromptMiddle + data + PromptTail
  }

  /** The template is the structural fill of its own two tokens. */
  lemma PromptFormatIsFill()
    ensures PromptFormat == FillTemplate(QueryToken, DescriptionToken)
  {
  }

  /** Both tokens begin with `<` and hold no newline. */
  lemma TokenShape()
    ensures |QueryToken| == 16 && |DescriptionToken| == 17
    ensures QueryToken[0] == '<' && DescriptionToken[0] == '<'
    ensures '\n' !in QueryToken && '\n' !in DescriptionToken
  {
  }

  /** The tokens are distinct and neither is a substring of the other. */
  lemma TokensDistinct()
    ensures QueryToken != DescriptionToken
    ensures !Contains(QueryToken, DescriptionToken)
    ensures !Contains(DescriptionToken, QueryToken)
  {
    TokenShape();
    var d := DescriptionToken;
    assert d[..16][3] != QueryToken[3];
    assert d[1..][..16][2] != QueryToken[2];
    CountShorter(d[2..], QueryToken);
  }

  lemma ComplexLine0Free()
    ensures '<' !in ComplexLine0
  {
  }

  lemma ComplexLine1Free()
    ensures '<' !in ComplexLine1
  {
  }

  lemma ComplexLine2Free()
    ensures '<' !in ComplexLine2
  {
  }

  lemma ComplexLine3Free()
    ensures '<' !in ComplexLine3
  {
  }

  lemma ComplexLine4Free()
    ensures '<' !in ComplexLine4
  {
  }

  lemma ComplexLine5Free()
    ensures '<' !in ComplexLine5
  {
  }

  lemma ComplexLine6Free()
    ensures '<' !in ComplexLine6
  {
  }

  lemma ComplexLine7Free()
    ensures '<' !in ComplexLine7
  {
  }

  lemma ComplexLine8Free()
    ensures '<' !in ComplexLine8
  {
  }

  lemma ComplexLine9Free()
    ensures '<' !in ComplexLine9
  {
  }

  lemma SimpleLineFree()
    ensures '<' !in SimpleLine
  {
  }

  lemma PromptTextFree()
    ensures '<' !in PromptHeadText && '<' !in PromptMiddleText
  {
  }

  lemma ComplexContextPromptFree()
    ensures '<' !in ComplexContextPrompt
  {
    ComplexLine0Free();
    ComplexLine1Free();
    ComplexLine2Free();
    ComplexLine3Free();
    ComplexLine4Free();
    ComplexLine5Free();
    ComplexLine6Free();
    ComplexLine7Free();
    ComplexLine8Free();
    ComplexLine9Free();
  }

  /** Text without `<` contains neither token. */
  lemma TokenFreeWithoutAngle(s: string)
    requires '<' !in s
    ensures !Contains(s, QueryToken) && !Contains(s, DescriptionToken)
  {
    TokenShape();
    CountWithoutFirstChar(s, QueryToken);
    CountWithoutFirstChar(s, DescriptionToken);
  }

  /** Neither system instruction contains either token. */
  lemma ContextPromptsTokenFree()
    ensures !Contains(ComplexContextPrompt, QueryToken)
    ensures !Contains(ComplexContextPrompt, DescriptionToken)
    ensures !Contains(SimpleContextPrompt, QueryToken)
    ensures !Contains(SimpleContextPrompt, DescriptionToken)
  {
    ComplexContextPromptFree();
    TokenFreeWithoutAngle(ComplexContextPrompt);
    SimpleLineFree();
    TokenFreeWithoutAngle(SimpleContextPrompt);
  }

  /** The literal parts of the template hold no `<`, and a newline stands
      at each seam between a literal part and a token. */
  lemma TemplatePieces()
    ensures '<' !in PromptHead && '<' !in PromptMiddle && '<' !in PromptTail
    ensures PromptHead[|PromptHead| - 1] == '\n'
    ensures PromptMiddle[0] == '\n' && PromptMiddle[|PromptMiddle| - 1] == '\n'
    ensures PromptTail[0] == '\n'
  {
    PromptTextFree();
  }

  /** Counting a `<`-led token in a filled template counts it in the two
      inserted texts only. */
  lemma CountFilled(question: string, data: string, t: string)
    requires |t| > 0 && t[0] == '<' && '\n' !in t
    ensures Count(FillTemplate(question, data), t) == Count(question, t) + Count(data, t)
  {
    TemplatePieces();
    var h, m, e := PromptHead, PromptMiddle, PromptTail;
    CountWithoutFirstChar(h, t);
    CountWithoutFirstChar(m, t);
    CountWithoutFirstChar(e, t);
    CountConcat(h, question, t);
    CountConcat(h + question, m, t);
    assert (h + question + m)[|h + question + m| - 1] == m[|m| - 1];
    CountConcat(h + question + m, data, t);
    CountConcat(h + question + m + data, e, t);
  }

  /** Replacing a `<`-led token in a filled template replaces it in the two
      inserted texts only. */
  lemma ReplaceFilled(question: string, data: string, t: string, r: string)
    requires |t| > 0 && t[0] == '<' && '\n' !in t
    ensures ReplaceAll(FillTemplate(question, data), t, r)
         == FillTemplate(ReplaceAll(question, t, r), ReplaceAll(data, t, r))
  {
    TemplatePieces();
    var h, m, e := PromptHead, PromptMiddle, PromptTail;
    CountWithoutFirstChar(h, t);
    CountWithoutFirstChar(m, t);
    CountWithoutFirstChar(e, t);
    ReplaceAllConcat(h, question, t, r);
    ReplaceAllConcat(h + question, m, t, r);
    assert (h + question + m)[|h + question + m| - 1] == m[|m| - 1];
    ReplaceAllConcat(h + question + m, data, t, r);
    ReplaceAllConcat(h + question + m + data, e, t, r);
  }

  /** Where the query token stands in the template. */
  const QueryIndex: nat := |PromptHead|

  /** Where the description token stands in the template. */
  const DescriptionIndex: nat := |PromptHead| + |QueryToken| + |PromptMiddle|

  /** The question stands right after the first template line. */
  lemma QuestionAt(question: string, data: string)
    ensures OccursAt(FillTemplate(question, data), question, |PromptHead|)
  {
    var s := FillTemplate(question, data);
    assert s[|PromptHead|..|PromptHead| + |question|] == question;
  }

  /** The data stands right after the second template line. */
  lemma DataAt(question: string, data: string)
    ensures OccursAt(FillTemplate(question, data), data, |PromptHead| + |question| + |PromptMiddle|)
  {
    var s := FillTemplate(question, data);
    var k := |PromptHead| + |question| + |PromptMiddle|;
    assert s[k..k + |data|] == data;
  }

  /** The query token occurs exactly once in the template. */
  lemma QueryTokenOnce()
    ensures Count(PromptFormat, QueryToken) == 1
  {
    TokenShape();
    TokensDistinct();
    PromptFormatIsFill();
    CountFilled(QueryToken, DescriptionToken, QueryToken);
    CountSelf(QueryToken);
  }

  /** The description token occurs exactly once in the template. */
  lemma DescriptionTokenOnce()
    ensures Count(PromptFormat, DescriptionToken) == 1
  {
    TokenShape();
    TokensDistinct();
    PromptFormatIsFill();
    CountFilled(QueryToken, DescriptionToken, DescriptionToken);
    CountSelf(DescriptionToken);
  }

  /** The query token stands right after the first template line and
      nowhere else, and the description token stands after it, past the
      second line, and nowhere else. */
  lemma TokenPositions()
    ensures forall i: nat :: OccursAt(PromptFormat, QueryToken, i) <==> i == QueryIndex
    ensures forall i: nat :: OccursAt(PromptFormat, DescriptionToken, i) <==> i == DescriptionIndex
    ensures QueryIndex + |QueryToken| < DescriptionIndex
  {
    PromptFormatIsFill();
    QuestionAt(QueryToken, DescriptionToken);
    DataAt(QueryToken, DescriptionToken);
    TemplatePieces();
    TokenShape();
    QueryTokenOnce();
    DescriptionTokenOnce();
    OnlyOccurrence(PromptFormat, QueryToken, QueryIndex);
    OnlyOccurrence(PromptFormat, DescriptionToken, DescriptionIndex);
  }

  /** The text-extraction step of `url_scraper`: the paragraph texts of the
      fetched page, collected in document order, joined by newlines.
      `paragraphsOf` stands for the HTTP fetch and the HTML parse. */
  method UrlScraper(url: string, paragraphsOf: string -> seq<string>) returns (mainText: string)
    ensures mainText == Join(paragraphsOf(url), "\n")
    ensures paragraphsOf(url) == [] ==> mainText == ""
    ensures |paragraphsOf(url)| >= 1
            && (forall i :: 0 <= i < |paragraphsOf(url)| ==> '\n' !in paragraphsOf(url)[i])
            ==> Split(mainText, '\n') == paragraphsOf(url)
  {
    var found := paragraphsOf(url);
    var paragraphs: seq<string> := [];
    for k := 0 to |found|
      invariant paragraphs == found[..k]
    {
      paragraphs := paragraphs + [found[k]];
    }
    assert paragraphs == found;
    mainText := Join(paragraphs, "\n");
    if |found| >= 1 && forall i :: 0 <= i < |found| ==> '\n' !in found[i] {
      SplitJoin(found, '\n');
    }
  }
}
