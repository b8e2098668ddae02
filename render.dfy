/** The two renderings of one built variant: the markdown document offered for
    download and the plain text offered for copying. The short test id (the
    first eight characters of a fresh UUID) and the translation lookup `t` are
    parameters. */
module Render {
  import opened Variant

  /** The request fields the renderers print: subject, topics, difficulty. */
  datatype Request = Request(subject: string, topics: string, difficulty: string)

  predicate IsDigit(c: char)
  {
    '0' <= c <= '9'
  }

  function DigitChar(d: nat): (c: char)
    requires d < 10
    ensures IsDigit(c) && DigitValue(c) == d
  {
    ('0' as int + d) as char
  }

  /** `str(n)` for a natural number: its decimal digits, most significant first. */
  function DecimalString(n: nat): (r: string)
    ensures |r| >= 1
    ensures forall i :: 0 <= i < |r| ==> IsDigit(r[i])
    ensures |r| > 1 ==> r[0] != '0'
  {
    if n < 10 then [DigitChar(n)] else DecimalString(n / 10) + [DigitChar(n % 10)]
  }

  function DigitValue(c: char): nat
    requires IsDigit(c)
  {
    c as int - '0' as int
  }

  /** The number a string of decimal digits denotes. */
  function DecimalValue(s: string): nat
    requires forall i :: 0 <= i < |s| ==> IsDigit(s[i])
  {
    if s == [] then 0 else 10 * DecimalValue(s[..|s| - 1]) + DigitValue(s[|s| - 1])
  }

  lemma {:induction false} DecimalRoundTrip(n: nat)
    ensures DecimalValue(DecimalString(n)) == n
  {
    if n >= 10 {
      var s := DecimalString(n);
      assert s[..|s| - 1] == DecimalString(n / 10);
      DecimalRoundTrip(n / 10);
    }
  }

  /** The longest prefix of `s` made of digits. */
  function TakeDigits(s: string): (r: string)
    ensures r <= s
    ensures forall i :: 0 <= i < |r| ==> IsDigit(r[i])
  {
    if s == [] || !IsDigit(s[0]) then [] else [s[0]] + TakeDigits(s[1..])
  }

  lemma {:induction false} TakeDigitsOfDecimal(d: string, rest: string)
    requires forall i :: 0 <= i < |d| ==> IsDigit(d[i])
    requires rest == [] || !IsDigit(rest[0])
    ensures TakeDigits(d + rest) == d
  {
    if d != [] {
      assert (d + rest)[1..] == d[1..] + rest;
      TakeDigitsOfDecimal(d[1..], rest);
    }
  }

  /** `str(uuid)[:8]`: at most the first eight characters. */
  function ShortId(uuid: string): (r: string)
    ensures r <= uuid && |r| == (if |uuid| < 8 then |uuid| else 8)
  {
    if |uuid| < 8 then uuid else uuid[..8]
  }

  // ---------------------------------------------------------------- markdown

  function MdHeader(testId: string, t: string -> string, req: Request, variantName: string): string
  {
    "# ID: " + testId + " - " + t("variant") + " " + variantName + "\n" +
    "**" + t("subject") + ":** " + req.subject + "\n" +
    "**" + t("theme") + ":** " + req.topics + "\n" +
    "**" + t("difficulty") + ":** " + req.difficulty + "\n\n" +
    "--- \n\n## " + t("questions") + "\n\n"
  }

  function MdKeyHeader(t: string -> string, variantName: string): string
  {
    "\n\n--- \n\n## " + t("que_keys") + " " + variantName + "\n"
  }

  function MdOptionLine(o: VariantOption): string
  {
    "- **" + [o.key] + "**. " + o.text + "\n"
  }

  /** The option lines of one question, in stored order. */
  function MdOptions(options: seq<VariantOption>): string
  {
    if options == [] then "" else MdOptions(options[..|options| - 1]) + MdOptionLine(options[|options| - 1])
  }

  /** The block of the question shown as number `n`. */
  function MdQuestion(n: nat, q: VariantQuestion): string
  {
    "### " + DecimalString(n) + ". " + q.text + "\n" + MdOptions(q.options) + "\n"
  }

  /** The question blocks, numbered 1, 2, ... by position. */
  function MdQuestions(v: seq<VariantQuestion>): string
  {
    if v == [] then "" else MdQuestions(v[..|v| - 1]) + MdQuestion(|v|, v[|v| - 1])
  }

  /** The answer-key line of the question shown as number `n`. */
  function MdKeyLine(t: string -> string, n: nat, q: VariantQuestion): string
  {
    "- " + t("question") + " " + DecimalString(n) + " (Master ID: " + DecimalString(q.masterId) + "): **" +
    [q.correctKey] + "**\n"
  }

  /** The answer-key lines, one per position, in order. */
  function MdAnswerKey(t: string -> string, v: seq<VariantQuestion>): string
  {
    if v == [] then "" else MdAnswerKey(t, v[..|v| - 1]) + MdKeyLine(t, |v|, v[|v| - 1])
  }

  function MarkdownDocument(v: seq<VariantQuestion>, req: Request, variantName: string, testId: string,
                            t: string -> string): string
  {
    MdHeader(testId, t, req, variantName) + MdQuestions(v) + MdKeyHeader(t, variantName) + MdAnswerKey(t, v)
  }

  /** Regrouping a concatenation of three strings. */
  lemma Concat3(a: string, b: string, c: string)
    ensures a + (b + c) == a + b + c
  {
  }

  lemma MdOptionsStep(options: seq<VariantOption>, j: nat)
    requires j < |options|
    ensures MdOptions(options[..j + 1]) == MdOptions(options[..j]) + MdOptionLine(options[j])
  {
    assert options[..j + 1][..j] == options[..j];
  }

  lemma MdQuestionsStep(t: string -> string, v: seq<VariantQuestion>, k: nat)
    requires k < |v|
    ensures MdQuestions(v[..k + 1]) == MdQuestions(v[..k]) + MdQuestion(k + 1, v[k])
    ensures MdAnswerKey(t, v[..k + 1]) == MdAnswerKey(t, v[..k]) + MdKeyLine(t, k + 1, v[k])
  {
    assert v[..k + 1][..k] == v[..k];
  }

  /** `get_markdown_for_variant`: walks the variant once, appending each
      question block to the document and its key line to the answer key. */
  method RenderMarkdown(v: seq<VariantQuestion>, req: Request, variantName: string, uuid: string,
                        t: string -> string) returns (md: string)
    ensures md == MarkdownDocument(v, req, variantName, ShortId(uuid), t)
  {
    var uniqueTestId := ShortId(uuid);
    var mdContent := "# ID: " + uniqueTestId + " - " + t("variant") + " " + variantName + "\n";
    mdContent := mdContent + "**" + t("subject") + ":** " + req.subject + "\n";
    mdContent := mdContent + "**" + t("theme") + ":** " + req.topics + "\n";
    mdContent := mdContent + "**" + t("difficulty") + ":** " + req.difficulty + "\n\n";
    mdContent := mdContent + "--- \n\n## " + t("questions") + "\n\n";
    ghost var header := mdContent;
    var answerKey := "\n\n--- \n\n## " + t("que_keys") + " " + variantName + "\n";
    var qNum := 0;
    while qNum < |v|
      invariant 0 <= qNum <= |v|
      invariant mdContent == header + MdQuestions(v[..qNum])
      invariant answerKey == MdKeyHeader(t, variantName) + MdAnswerKey(t, v[..qNum])
    {
      var vQ := v[qNum];
      ghost var before := mdContent;
      var title := "### " + DecimalString(qNum + 1) + ". " + vQ.text + "\n";
      mdContent := mdContent + title;
      var j := 0;
      while j < |vQ.options|
        invariant 0 <= j <= |vQ.options|
        invariant mdContent == before + title + MdOptions(vQ.options[..j])
      {
        var vOpt := vQ.options[j];
        var line := "- **" + [vOpt.key] + "**. " + vOpt.text + "\n";
        MdOptionsStep(vQ.options, j);
        Concat3(before + title, MdOptions(vQ.options[..j]), line);
        mdContent := mdContent + line;
        j := j + 1;
      }
      assert vQ.options[..j] == vQ.options;
      mdContent := mdContent + "\n";
      Concat3(before, title, MdOptions(vQ.options));
      Concat3(before, title + MdOptions(vQ.options), "\n");
      var keyLine := "- " + t("question") + " " + DecimalString(qNum + 1) + " (Master ID: " +
                     DecimalString(vQ.masterId) + "): **" + [vQ.correctKey] + "**\n";
      MdQuestionsStep(t, v, qNum);
      Concat3(header, MdQuestions(v[..qNum]), MdQuestion(qNum + 1, vQ));
      Concat3(MdKeyHeader(t, variantName), MdAnswerKey(t, v[..qNum]), keyLine);
      answerKey := answerKey + keyLine;
      qNum := qNum + 1;
    }
    assert v[..qNum] == v;
    Concat3(mdContent, MdKeyHeader(t, variantName), MdAnswerKey(t, v));
    md := mdContent + answerKey;
  }

  // -------------------------------------------------------------- plain text

  const Separator := "========================================"

  function PlainHeader(testId: string, t: string -> string, req: Request, variantName: string): string
  {
    "ID: " + testId + " - " + t("variant") + " " + variantName + "\n" +
    t("subject") + ": " + req.subject + "\n" +
    t("difficulty") + ": " + req.difficulty + "\n" +
    "\n" + Separator + "\n\n"
  }

  function PlainKeyHeader(t: string -> string, variantName: string): string
  {
    "\n\n" + Separator + "\n\n" + t("que_keys") + " " + variantName + "\n"
  }

  function PlainOptionLine(o: VariantOption): string
  {
    "   " + [o.key] + ". " + o.text + "\n"
  }

  function PlainOptions(options: seq<VariantOption>): string
  {
    if options == [] then "" else PlainOptions(options[..|options| - 1]) + PlainOptionLine(options[|options| - 1])
  }

  function PlainQuestion(n: nat, q: VariantQuestion): string
  {
    DecimalString(n) + ". " + q.text + "\n" + PlainOptions(q.options) + "\n"
  }

  function PlainQuestions(v: seq<VariantQuestion>): string
  {
    if v == [] then "" else PlainQuestions(v[..|v| - 1]) + PlainQuestion(|v|, v[|v| - 1])
  }

  function PlainKeyLine(t: string -> string, n: nat, q: VariantQuestion): string
  {
    t("question") + " " + DecimalString(n) + ": " + [q.correctKey] + "\n"
  }

  function PlainAnswerKey(t: string -> string, v: seq<VariantQuestion>): string
  {
    if v == [] then "" else PlainAnswerKey(t, v[..|v| - 1]) + PlainKeyLine(t, |v|, v[|v| - 1])
  }

  function PlainTextDocument(v: seq<VariantQuestion>, req: Request, variantName: string, testId: string,
                             t: string -> string): string
  {
    PlainHeader(testId, t, req, variantName) + PlainQuestions(v) + PlainKeyHeader(t, variantName) + PlainAnswerKey(t, v)
  }

  lemma PlainOptionsStep(options: seq<VariantOption>, j: nat)
    requires j < |options|
    ensures PlainOptions(options[..j + 1]) == PlainOptions(options[..j]) + PlainOptionLine(options[j])
  {
    assert options[..j + 1][..j] == options[..j];
  }

  lemma PlainQuestionsStep(t: string -> string, v: seq<VariantQuestion>, k: nat)
    requires k < |v|
    ensures PlainQuestions(v[..k + 1]) == PlainQuestions(v[..k]) + PlainQuestion(k + 1, v[k])
    ensures PlainAnswerKey(t, v[..k + 1]) == PlainAnswerKey(t, v[..k]) + PlainKeyLine(t, k + 1, v[k])
  {
    assert v[..k + 1][..k] == v[..k];
  }

  /** `get_plain_text_for_variant`: the same walk with indentation instead of markup. */
  method RenderPlainText(v: seq<VariantQuestion>, req: Request, variantName: string, uuid: string,
                         t: string -> string) returns (text: string)
    ensures text == PlainTextDocument(v, req, variantName, ShortId(uuid), t)
  {
    var uniqueTestId := ShortId(uuid);
    var plainText := "ID: " + uniqueTestId + " - " + t("variant") + " " + variantName + "\n";
    plainText := plainText + t("subject") + ": " + req.subject + "\n";
    plainText := plainText + t("difficulty") + ": " + req.difficulty + "\n";
    plainText := plainText + "\n" + Separator + "\n\n";
    ghost var header := plainText;
    var answerKey := "\n\n" + Separator + "\n\n" + t("que_keys") + " " + variantName + "\n";
    var qNum := 0;
    while qNum < |v|
      invariant 0 <= qNum <= |v|
      invariant plainText == header + PlainQuestions(v[..qNum])
      invariant answerKey == PlainKeyHeader(t, variantName) + PlainAnswerKey(t, v[..qNum])
    {
      var vQ := v[qNum];
      ghost var before := plainText;
      var title := DecimalString(qNum + 1) + ". " + vQ.text + "\n";
      plainText := plainText + title;
      var j := 0;
      while j < |vQ.options|
        invariant 0 <= j <= |vQ.options|
        invariant plainText == before + title + PlainOptions(vQ.options[..j])
      {
        var vOpt := vQ.options[j];
        var line := "   " + [vOpt.key] + ". " + vOpt.text + "\n";
        PlainOptionsStep(vQ.options, j);
        Concat3(before + title, PlainOptions(vQ.options[..j]), line);
        plainText := plainText + line;
        j := j + 1;
      }
      assert vQ.options[..j] == vQ.options;
      plainText := plainText + "\n";
      Concat3(before, title, PlainOptions(vQ.options));
      Concat3(before, title + PlainOptions(vQ.options), "\n");
      var keyLine := t("question") + " " + DecimalString(qNum + 1) + ": " + [vQ.correctKey] + "\n";
      PlainQuestionsStep(t, v, qNum);
      Concat3(header, PlainQuestions(v[..qNum]), PlainQuestion(qNum + 1, vQ));
      Concat3(PlainKeyHeader(t, variantName), PlainAnswerKey(t, v[..qNum]), keyLine);
      answerKey := answerKey + keyLine;
      qNum := qNum + 1;
    }
    assert v[..qNum] == v;
    Concat3(plainText, PlainKeyHeader(t, variantName), PlainAnswerKey(t, v));
    text := plainText + answerKey;
  }

  // ------------------------------------------------------ reading the key back

  /** Reads a markdown answer-key line `- <question> <n> (Master ID: <m>): **<key>**`
      back into its question number, master id and key. */
  function ReadMdKeyLine(question: string, line: string): Option<(nat, nat, char)>
  {
    var lead := "- " + question + " ";
    if !(lead <= line) then None
    else
      var afterLead := line[|lead|..];
      var number := TakeDigits(afterLead);
      var rest := afterLead[|number|..];
      var middle := " (Master ID: ";
      if number == [] || !(middle <= rest) then None
      else
        var afterMiddle := rest[|middle|..];
        var masterId := TakeDigits(afterMiddle);
        var closing := afterMiddle[|masterId|..];
        if masterId == [] || !("): **" <= closing) then None
        else
          var keyPart := closing[5..];
          if |keyPart| != 4 || keyPart[1..] != "**\n" then None
          else Some((DecimalValue(number), DecimalValue(masterId), keyPart[0]))
  }

  /** Reads a plain-text answer-key line `<question> <n>: <key>` back. */
  function ReadPlainKeyLine(question: string, line: string): Option<(nat, char)>
  {
    var lead := question + " ";
    if !(lead <= line) then None
    else
      var afterLead := line[|lead|..];
      var number := TakeDigits(afterLead);
      var rest := afterLead[|number|..];
      if number == [] || !(": " <= rest) then None
      else
        var keyPart := rest[2..];
        if |keyPart| != 2 || keyPart[1] != '\n' then None
        else Some((DecimalValue(number), keyPart[0]))
  }

  lemma DropPrefix(a: string, b: string)
    ensures a <= a + b && (a + b)[|a|..] == b
  {
  }

  /** The markdown key line regrouped from the right, the way it is read. */
  lemma MdKeyLineShape(t: string -> string, n: nat, q: VariantQuestion)
    ensures MdKeyLine(t, n, q) ==
            ("- " + t("question") + " ") + (DecimalString(n) + (" (Master ID: " + (DecimalString(q.masterId) +
            ("): **" + ([q.correctKey] + "**\n")))))
  {
    var lead := "- " + t("question") + " ";
    var number, masterId := DecimalString(n), DecimalString(q.masterId);
    var keyPart := [q.correctKey] + "**\n";
    var closing := "): **" + keyPart;
    var afterMiddle := masterId + closing;
    var rest := " (Master ID: " + afterMiddle;
    Concat3(lead + number + " (Master ID: " + masterId + "): **", [q.correctKey], "**\n");
    Concat3(lead + number + " (Master ID: " + masterId, "): **", keyPart);
    Concat3(lead + number + " (Master ID: ", masterId, closing);
    Concat3(lead + number, " (Master ID: ", afterMiddle);
    Concat3(lead, number, rest);
  }

  /** A markdown key line names its question number, master id and key unambiguously. */
  lemma MdKeyLineRoundTrip(t: string -> string, n: nat, q: VariantQuestion)
    ensures ReadMdKeyLine(t("question"), MdKeyLine(t, n, q)) == Some((n, q.masterId, q.correctKey))
  {
    var lead := "- " + t("question") + " ";
    var number, masterId := DecimalString(n), DecimalString(q.masterId);
    var keyPart := [q.correctKey] + "**\n";
    var closing := "): **" + keyPart;
    var afterMiddle := masterId + closing;
    var rest := " (Master ID: " + afterMiddle;
    var afterLead := number + rest;
    MdKeyLineShape(t, n, q);
    DropPrefix(lead, afterLead);
    TakeDigitsOfDecimal(number, rest);
    DropPrefix(number, rest);
    DropPrefix(" (Master ID: ", afterMiddle);
    TakeDigitsOfDecimal(masterId, closing);
    DropPrefix(masterId, closing);
    DropPrefix("): **", keyPart);
    assert keyPart[1..] == "**\n";
    DecimalRoundTrip(n);
    DecimalRoundTrip(q.masterId);
  }

  /** A plain-text key line names its question number and key unambiguously. */
  lemma PlainKeyLineRoundTrip(t: string -> string, n: nat, q: VariantQuestion)
    ensures ReadPlainKeyLine(t("question"), PlainKeyLine(t, n, q)) == Some((n, q.correctKey))
  {
    var lead := t("question") + " ";
    var number := DecimalString(n);
    var keyPart := [q.correctKey] + "\n";
    var rest := ": " + keyPart;
    var afterLead := number + rest;
    Concat3(lead + number + ": ", [q.correctKey], "\n");
    Concat3(lead + number, ": ", keyPart);
    Concat3(lead, number, rest);
    assert PlainKeyLine(t, n, q) == lead + afterLead;
    assert (lead + afterLead)[|lead|..] == afterLead;
    TakeDigitsOfDecimal(number, rest);
    assert afterLead[|number|..] == rest;
    assert rest[2..] == keyPart;
    DecimalRoundTrip(n);
  }

  lemma {:induction false} MdAnswerKeyPrefix(t: string -> string, v: seq<VariantQuestion>, k: nat)
    requires k <= |v|
    ensures MdAnswerKey(t, v[..k]) <= MdAnswerKey(t, v)
    decreases |v|
  {
    if k < |v| {
      var w := v[..|v| - 1];
      assert w[..k] == v[..k];
      MdAnswerKeyPrefix(t, w, k);
    } else {
      assert v[..k] == v;
    }
  }

  lemma {:induction false} PlainAnswerKeyPrefix(t: string -> string, v: seq<VariantQuestion>, k: nat)
    requires k <= |v|
    ensures PlainAnswerKey(t, v[..k]) <= PlainAnswerKey(t, v)
    decreases |v|
  {
    if k < |v| {
      var w := v[..|v| - 1];
      assert w[..k] == v[..k];
      PlainAnswerKeyPrefix(t, w, k);
    } else {
      assert v[..k] == v;
    }
  }

  /** In both answer keys the line for position q follows the lines for
      positions 0..q-1, and both lines read back the same question number and
      the same key: the two renderings never disagree on an answer. */
  lemma AnswerKeyLinesAt(t: string -> string, v: seq<VariantQuestion>, q: nat)
    requires q < |v|
    ensures MdAnswerKey(t, v[..q]) + MdKeyLine(t, q + 1, v[q]) <= MdAnswerKey(t, v)
    ensures PlainAnswerKey(t, v[..q]) + PlainKeyLine(t, q + 1, v[q]) <= PlainAnswerKey(t, v)
    ensures ReadMdKeyLine(t("question"), MdKeyLine(t, q + 1, v[q])) == Some((q + 1, v[q].masterId, v[q].correctKey))
    ensures ReadPlainKeyLine(t("question"), PlainKeyLine(t, q + 1, v[q])) == Some((q + 1, v[q].correctKey))
  {
    MdQuestionsStep(t, v, q);
    PlainQuestionsStep(t, v, q);
    MdAnswerKeyPrefix(t, v, q + 1);
    PlainAnswerKeyPrefix(t, v, q + 1);
    MdKeyLineRoundTrip(t, q + 1, v[q]);
    PlainKeyLineRoundTrip(t, q + 1, v[q]);
  }

  /** For a variant of the master list, the markdown key line of position q
      names a master question and a key whose option in the variant holds
      that master question's correct answer. */
  lemma MdKeyLineGradesAgainstMaster(master: seq<MasterQuestion>, variantIndex: int, v: seq<VariantQuestion>,
                                     t: string -> string, q: nat)
    requires IsVariantOf(master, variantIndex, v)
    requires q < |v|
    ensures ReadMdKeyLine(t("question"), MdKeyLine(t, q + 1, v[q])) == Some((q + 1, v[q].masterId, v[q].correctKey))
    ensures 1 <= v[q].masterId <= |master| && HasValidAnswer(master[v[q].masterId - 1])
    ensures var m := master[v[q].masterId - 1];
            OptionTextForKey(v[q].options, v[q].correctKey) == Some(m.options[m.correctAnswerIndex])
  {
    MdKeyLineRoundTrip(t, q + 1, v[q]);
    AnswerKeyRecoversMaster(master, variantIndex, v, q);
  }
}
