/** The variant builder: master question records, the option and question
    records of one variant, and `create_test_variant` with the loop that
    builds `num_variants` variants from one master list. */
module Variant {
  import opened Shuffle

  datatype Option<T> = None | Some(value: T)

  /** One record of the master list: `text`, `options`, `correct_answer_index`. */
  datatype MasterQuestion = MasterQuestion(text: string, options: seq<string>, correctAnswerIndex: int)

  /** `VariantOption`: a key letter, the option text, whether it is the right answer. */
  datatype VariantOption = VariantOption(key: char, text: string, isCorrect: bool)

  /** `VariantQuestion`: text, options in variant order, the 1-based master
      position and the derived key of the correct option. */
  datatype VariantQuestion = VariantQuestion(text: string, options: seq<VariantOption>, masterId: nat, correctKey: char)

  /** `chr(65 + j)` is a Dafny `char` as long as it stays below the surrogate range. */
  const KeyLimit: nat := 0xD800 - 65

  function Key(j: nat): (c: char)
    requires j < KeyLimit
    ensures c as int == 65 + j
  {
    (65 + j) as char
  }

  /** Every master question has few enough options for its keys to be characters. */
  ghost predicate KeysFit(master: seq<MasterQuestion>)
  {
    forall k :: 0 <= k < |master| ==> |master[k].options| < KeyLimit
  }

  predicate HasValidAnswer(q: MasterQuestion)
  {
    0 <= q.correctAnswerIndex < |q.options|
  }

  ghost predicate AllAnswersValid(master: seq<MasterQuestion>)
  {
    forall k :: 0 <= k < |master| ==> HasValidAnswer(master[k])
  }

  /** `next(opt.key for opt in options if opt.is_correct)`: the key of the first
      option marked correct, or `None` where `next` raises `StopIteration`. */
  function FirstCorrectKey(options: seq<VariantOption>): (r: Option<char>)
    ensures r.None? <==> forall j :: 0 <= j < |options| ==> !options[j].isCorrect
    ensures r.Some? ==> exists j :: 0 <= j < |options| && options[j].isCorrect && options[j].key == r.value &&
                                    forall i :: 0 <= i < j ==> !options[i].isCorrect
  {
    if |options| == 0 then None
    else if options[0].isCorrect then Some(options[0].key)
    else
      var rest := FirstCorrectKey(options[1..]);
      if rest.Some? then
        ghost var j :| 0 <= j < |options| - 1 && options[1..][j].isCorrect && options[1..][j].key == rest.value &&
                       forall i :: 0 <= i < j ==> !options[1..][i].isCorrect;
        assert options[j + 1].isCorrect && forall i :: 0 <= i < j + 1 ==> !options[i].isCorrect;
        rest
      else rest
  }

  /** `VariantQuestion(text, options, master_id)`: `None` when no option is correct. */
  function NewVariantQuestion(text: string, options: seq<VariantOption>, masterId: nat): (r: Option<VariantQuestion>)
    ensures r.Some? <==> exists j :: 0 <= j < |options| && options[j].isCorrect
    ensures r.Some? ==> r.value.text == text && r.value.options == options && r.value.masterId == masterId
    ensures r.Some? ==> FirstCorrectKey(options) == Some(r.value.correctKey)
  {
    match FirstCorrectKey(options)
    case None => None
    case Some(k) => Some(VariantQuestion(text, options, masterId, k))
  }

  /** The options of one question after the shuffle of `(index, text)` pairs:
      the key is the new position, `is_correct` compares the original index. */
  function KeyedOptions(pairs: seq<(nat, string)>, correctIndex: int): (r: seq<VariantOption>)
    requires |pairs| < KeyLimit
    ensures |r| == |pairs|
    ensures forall j :: 0 <= j < |r| ==> r[j] == KeyedOption(j, pairs[j], correctIndex)
  {
    seq(|pairs|, j requires 0 <= j < |pairs| => KeyedOption(j, pairs[j], correctIndex))
  }

  /** The option at new position `j` made from the pair `(original index, text)`. */
  function KeyedOption(j: nat, pair: (nat, string), correctIndex: int): (o: VariantOption)
    requires j < KeyLimit
    ensures o.key as int == 65 + j && o.text == pair.1 && (o.isCorrect <==> pair.0 == correctIndex)
  {
    VariantOption(Key(j), pair.1, pair.0 == correctIndex)
  }

  function Texts(options: seq<VariantOption>): (r: seq<string>)
    ensures |r| == |options|
    ensures forall j :: 0 <= j < |r| ==> r[j] == options[j].text
  {
    seq(|options|, j requires 0 <= j < |options| => options[j].text)
  }

  /** The order in which the master questions are visited: unshuffled for
      variant 0 (and below), shuffled by `draws` from variant 1 on. */
  function QuestionOrder(master: seq<MasterQuestion>, variantIndex: int, draws: seq<nat>): seq<(nat, MasterQuestion)>
    requires variantIndex > 0 ==> DrawsInRange(|master|, draws)
  {
    if variantIndex > 0 then Shuffled(Enumerate(master), draws) else Enumerate(master)
  }

  /** The options of `q` after its option shuffle `draws`. */
  function ShuffledOptions(q: MasterQuestion, draws: seq<nat>): seq<VariantOption>
    requires |q.options| < KeyLimit && DrawsInRange(|q.options|, draws)
  {
    KeyedOptions(Shuffled(Enumerate(q.options), draws), q.correctAnswerIndex)
  }

  /** The variant question built from master pair `(k, q)` and option shuffle `draws`. */
  function BuildQuestion(k: nat, q: MasterQuestion, draws: seq<nat>): Option<VariantQuestion>
    requires |q.options| < KeyLimit && DrawsInRange(|q.options|, draws)
  {
    NewVariantQuestion(q.text, ShuffledOptions(q, draws), k + 1)
  }

  /** Exactly one option of `options` is correct: the one at position `j`. */
  ghost predicate OnlyCorrectAt(options: seq<VariantOption>, j: int)
  {
    0 <= j < |options| && options[j].isCorrect &&
    forall i :: 0 <= i < |options| && i != j ==> !options[i].isCorrect
  }

  /** What a variant question owes its master question: the same text, its
      options permuted under keys A, B, C, ... by position, and a unique
      correct option that carries the master's correct text and `correctKey`. */
  ghost predicate Matches(v: VariantQuestion, q: MasterQuestion)
  {
    && v.text == q.text
    && |v.options| == |q.options|
    && multiset(Texts(v.options)) == multiset(q.options)
    && (forall j :: 0 <= j < |v.options| ==> v.options[j].key as int == 65 + j)
    && HasValidAnswer(q)
    && exists j :: OnlyCorrectAt(v.options, j) &&
                   v.options[j].key == v.correctKey &&
                   v.options[j].text == q.options[q.correctAnswerIndex]
  }

  function MasterIds(v: seq<VariantQuestion>): (r: seq<nat>)
    ensures |r| == |v|
    ensures forall p :: 0 <= p < |v| ==> r[p] == v[p].masterId
  {
    seq(|v|, p requires 0 <= p < |v| => v[p].masterId)
  }

  /** The master ids of `v` are a permutation of 1..n: all in range, none
      repeated, none missing. */
  ghost predicate IdsArePermutation(v: seq<VariantQuestion>, n: nat)
  {
    && |v| == n
    && (forall p :: 0 <= p < |v| ==> 1 <= v[p].masterId <= n)
    && (forall p, p' :: 0 <= p < |v| && 0 <= p' < |v| && p != p' ==> v[p].masterId != v[p'].masterId)
    && (forall m :: 1 <= m <= n ==> m in MasterIds(v))
  }

  /** The properties of one built variant: one question per master question,
      master ids a permutation of 1..N (in order for variant 0), and each
      question matching the master question its id names. */
  ghost predicate IsVariantOf(master: seq<MasterQuestion>, variantIndex: int, v: seq<VariantQuestion>)
  {
    && IdsArePermutation(v, |master|)
    && (variantIndex <= 0 ==> forall p :: 0 <= p < |v| ==> v[p].masterId == p + 1)
    && (forall p :: 0 <= p < |v| ==> Matches(v[p], master[v[p].masterId - 1]))
  }

  /** Keying a permuted enumeration of `options`: keys are positions, texts
      are a permutation of `options`, and the correct flag lands on exactly
      one option (the one holding `options[c]`) or, for `c` out of range, on none. */
  lemma KeyedPermutationFacts(options: seq<string>, pairs: seq<(nat, string)>, c: int)
    requires |options| < KeyLimit
    requires IsPermutedEnumeration(pairs, options)
    requires multiset(Seconds(pairs)) == multiset(options)
    ensures |KeyedOptions(pairs, c)| == |options|
    ensures multiset(Texts(KeyedOptions(pairs, c))) == multiset(options)
    ensures 0 <= c < |options| ==> exists j :: OnlyCorrectAt(KeyedOptions(pairs, c), j) &&
                                              KeyedOptions(pairs, c)[j].text == options[c]
    ensures !(0 <= c < |options|) ==> forall j :: 0 <= j < |options| ==> !KeyedOptions(pairs, c)[j].isCorrect
  {
    var opts := KeyedOptions(pairs, c);
    assert Texts(opts) == Seconds(pairs);
    if 0 <= c < |options| {
      var j :| 0 <= j < |pairs| && pairs[j] == (c, options[c]);
      assert OnlyCorrectAt(opts, j);
    }
  }

  /** Shuffling and keying the options of `q`. */
  lemma ShuffledOptionsFacts(q: MasterQuestion, draws: seq<nat>)
    requires |q.options| < KeyLimit && DrawsInRange(|q.options|, draws)
    ensures |ShuffledOptions(q, draws)| == |q.options|
    ensures multiset(Texts(ShuffledOptions(q, draws))) == multiset(q.options)
    ensures HasValidAnswer(q) ==> exists j :: OnlyCorrectAt(ShuffledOptions(q, draws), j) &&
                                             ShuffledOptions(q, draws)[j].text == q.options[q.correctAnswerIndex]
    ensures !HasValidAnswer(q) ==> forall j :: 0 <= j < |q.options| ==> !ShuffledOptions(q, draws)[j].isCorrect
  {
    var pairs := Shuffled(Enumerate(q.options), draws);
    ShuffledEnumerateIsPermutation(q.options, draws);
    SecondsOfShuffled(Enumerate(q.options), draws);
    assert Seconds(Enumerate(q.options)) == q.options;
    ShuffledPreservesMultiset(q.options, draws);
    KeyedPermutationFacts(q.options, pairs, q.correctAnswerIndex);
  }

  /** A built question exists exactly when the master's answer index is in
      range, and then it matches its master question. */
  lemma BuildQuestionFacts(k: nat, q: MasterQuestion, draws: seq<nat>)
    requires |q.options| < KeyLimit && DrawsInRange(|q.options|, draws)
    ensures BuildQuestion(k, q, draws).Some? <==> HasValidAnswer(q)
    ensures BuildQuestion(k, q, draws).Some? ==>
      BuildQuestion(k, q, draws).value.masterId == k + 1 &&
      Matches(BuildQuestion(k, q, draws).value, q)
  {
    var opts := ShuffledOptions(q, draws);
    ShuffledOptionsFacts(q, draws);
    if HasValidAnswer(q) {
      var j :| OnlyCorrectAt(opts, j) && opts[j].text == q.options[q.correctAnswerIndex];
      assert opts[j].isCorrect;
      var v := BuildQuestion(k, q, draws).value;
      var first :| 0 <= first < |opts| && opts[first].isCorrect && opts[first].key == v.correctKey &&
                   forall i :: 0 <= i < first ==> !opts[i].isCorrect;
      assert first == j;
    }
  }

  /** Position `p` of `v` is the question built from `order[p]` with option shuffle `optionDraws[p]`. */
  ghost predicate BuiltAt(order: seq<(nat, MasterQuestion)>, optionDraws: seq<seq<nat>>, v: seq<VariantQuestion>, p: int)
  {
    && 0 <= p < |order| && p < |optionDraws| && p < |v|
    && |order[p].1.options| < KeyLimit && DrawsComplete(|order[p].1.options|, optionDraws[p])
    && BuildQuestion(order[p].0, order[p].1, optionDraws[p]) == Some(v[p])
  }

  lemma BuiltAtExtend(order: seq<(nat, MasterQuestion)>, optionDraws: seq<seq<nat>>, v: seq<VariantQuestion>,
                      d: seq<nat>, x: VariantQuestion, p: int)
    requires BuiltAt(order, optionDraws, v, p)
    ensures BuiltAt(order, optionDraws + [d], v + [x], p)
  {
    assert (optionDraws + [d])[p] == optionDraws[p] && (v + [x])[p] == v[p];
  }

  lemma BuiltAtFacts(order: seq<(nat, MasterQuestion)>, optionDraws: seq<seq<nat>>, v: seq<VariantQuestion>, p: int)
    requires BuiltAt(order, optionDraws, v, p)
    ensures v[p].masterId == order[p].0 + 1 && Matches(v[p], order[p].1)
  {
    BuildQuestionFacts(order[p].0, order[p].1, optionDraws[p]);
  }

  lemma BuiltIdsArePermutation(master: seq<MasterQuestion>, order: seq<(nat, MasterQuestion)>, v: seq<VariantQuestion>)
    requires IsPermutedEnumeration(order, master)
    requires |v| == |master|
    requires forall p :: 0 <= p < |v| ==> v[p].masterId == order[p].0 + 1
    ensures IdsArePermutation(v, |master|)
  {
    forall m | 1 <= m <= |master|
      ensures m in MasterIds(v)
    {
      var k := m - 1;
      // Mentioning `master[k]` instantiates the existential of `CoversEnumeration`.
      assert Enumerate(master)[k] == (k, master[k]);
      var p :| 0 <= p < |order| && order[p] == (k, master[k]);
      assert MasterIds(v)[p] == m;
    }
  }

  /** The questions built along a question order that came from shuffling (or
      not shuffling) the master list form a variant of it. */
  lemma BuiltQuestionsFormVariant(master: seq<MasterQuestion>, variantIndex: int, order: seq<(nat, MasterQuestion)>,
                                  optionDraws: seq<seq<nat>>, v: seq<VariantQuestion>)
    requires IsPermutedEnumeration(order, master)
    requires variantIndex <= 0 ==> order == Enumerate(master)
    requires |v| == |master|
    requires forall p :: 0 <= p < |v| ==> BuiltAt(order, optionDraws, v, p)
    ensures IsVariantOf(master, variantIndex, v)
    ensures AllAnswersValid(master)
    ensures variantIndex <= 0 ==> forall p :: 0 <= p < |v| ==> v[p].masterId == p + 1 && v[p].text == master[p].text
  {
    forall p | 0 <= p < |v|
      ensures v[p].masterId == order[p].0 + 1 && Matches(v[p], order[p].1)
    {
      BuiltAtFacts(order, optionDraws, v, p);
    }
    BuiltIdsArePermutation(master, order, v);
    BuiltQuestionsMatchMaster(master, order, v);
    if variantIndex <= 0 {
      assert forall p :: 0 <= p < |v| ==> order[p].0 == p;
    }
  }

  lemma BuiltQuestionsMatchMaster(master: seq<MasterQuestion>, order: seq<(nat, MasterQuestion)>, v: seq<VariantQuestion>)
    requires IsPermutedEnumeration(order, master)
    requires |v| == |master|
    requires forall p :: 0 <= p < |v| ==> v[p].masterId == order[p].0 + 1 && Matches(v[p], order[p].1)
    ensures forall p :: 0 <= p < |v| ==> Matches(v[p], master[v[p].masterId - 1])
    ensures AllAnswersValid(master)
  {
    forall k | 0 <= k < |master|
      ensures HasValidAnswer(master[k])
    {
      var p :| 0 <= p < |order| && order[p] == (k, master[k]);
      assert Matches(v[p], order[p].1);
    }
  }

  /** The question order is a permutation of the master list, and for variant
      0 and below it is the master order itself. */
  lemma OrderIsPermutation(master: seq<MasterQuestion>, variantIndex: int, draws: seq<nat>)
    requires variantIndex > 0 ==> DrawsInRange(|master|, draws)
    ensures IsPermutedEnumeration(QuestionOrder(master, variantIndex, draws), master)
    ensures variantIndex <= 0 ==> QuestionOrder(master, variantIndex, draws) == Enumerate(master)
  {
    if variantIndex > 0 {
      ShuffledEnumerateIsPermutation(master, draws);
    } else {
      ShuffledEnumerateIsPermutation(master, []);
    }
  }

  /** The inner part of `create_test_variant` for one master question: shuffle
      `enumerate(options)` in place, then key the pairs by new position. */
  method NewOptions(q: MasterQuestion) returns (newOptions: seq<VariantOption>, ghost draws: seq<nat>)
    requires |q.options| < KeyLimit
    ensures DrawsComplete(|q.options|, draws)
    ensures newOptions == ShuffledOptions(q, draws)
  {
    var enumerated := Enumerate(q.options);
    var optionsForShuffle := new (nat, string)[|enumerated|](i requires 0 <= i < |enumerated| => enumerated[i]);
    assert optionsForShuffle[..] == enumerated;
    draws := ShuffleInPlace(optionsForShuffle);
    newOptions := KeyOptions(optionsForShuffle[..], q.correctAnswerIndex);
  }

  /** The loop over the shuffled `(original index, text)` pairs that gives the
      option at position `j` the key `chr(65 + j)` and marks it correct when its
      original index is `correctIndex`. */
  method KeyOptions(pairs: seq<(nat, string)>, correctIndex: int) returns (newOptions: seq<VariantOption>)
    requires |pairs| < KeyLimit
    ensures newOptions == KeyedOptions(pairs, correctIndex)
  {
    newOptions := [];
    var j := 0;
    while j < |pairs|
      invariant 0 <= j <= |pairs|
      invariant |newOptions| == j
      invariant forall t :: 0 <= t < j ==> newOptions[t] == KeyedOption(t, pairs[t], correctIndex)
    {
      var (originalIndex, optionText) := pairs[j];
      var key := Key(j);
      var isCorrect := originalIndex == correctIndex;
      newOptions := newOptions + [VariantOption(key, optionText, isCorrect)];
      j := j + 1;
    }
  }

  /** `create_test_variant(master_questions, variant_index)`. The variant exists
      exactly when every master answer index is in range (otherwise building a
      `VariantQuestion` raises); it is then a variant of the master list in the
      sense of `IsVariantOf`, and it is the one the ghost shuffle picks describe. */
  method CreateTestVariant(master: seq<MasterQuestion>, variantIndex: int)
    returns (r: Option<seq<VariantQuestion>>, ghost questionDraws: seq<nat>, ghost optionDraws: seq<seq<nat>>)
    requires KeysFit(master)
    ensures r.Some? <==> AllAnswersValid(master)
    ensures r.Some? ==> IsVariantOf(master, variantIndex, r.value)
    ensures r.Some? && variantIndex <= 0 ==>
      forall p :: 0 <= p < |master| ==> r.value[p].masterId == p + 1 && r.value[p].text == master[p].text
    ensures variantIndex > 0 ==> DrawsComplete(|master|, questionDraws)
    ensures variantIndex <= 0 ==> questionDraws == []
    ensures r.Some? ==> |optionDraws| == |master|
    ensures r.Some? ==> forall p :: 0 <= p < |master| ==> BuiltAt(QuestionOrder(master, variantIndex, questionDraws), optionDraws, r.value, p)
  {
    var order;
    order, questionDraws := OrderQuestions(master, variantIndex);
    r, optionDraws := BuildQuestions(master, order);
    if r.Some? {
      BuiltQuestionsFormVariant(master, variantIndex, order, optionDraws, r.value);
    }
  }

  /** The first half of `create_test_variant`: the list of `(index, question)`
      pairs, shuffled in place unless this is variant 0 (or below). */
  method OrderQuestions(master: seq<MasterQuestion>, variantIndex: int)
    returns (order: seq<(nat, MasterQuestion)>, ghost questionDraws: seq<nat>)
    ensures variantIndex > 0 ==> DrawsComplete(|master|, questionDraws)
    ensures variantIndex <= 0 ==> questionDraws == []
    ensures order == QuestionOrder(master, variantIndex, questionDraws)
    ensures IsPermutedEnumeration(order, master)
    ensures variantIndex <= 0 ==> order == Enumerate(master)
  {
    var n := |master|;
    var enumerated := Enumerate(master);
    var shuffledMaster := new (nat, MasterQuestion)[n](i requires 0 <= i < n => enumerated[i]);
    assert shuffledMaster[..] == enumerated;
    questionDraws := [];
    if variantIndex > 0 {
      questionDraws := ShuffleInPlace(shuffledMaster);
    }
    order := shuffledMaster[..];
    OrderIsPermutation(master, variantIndex, questionDraws);
  }

  /** The loop of `create_test_variant` over the (possibly shuffled) pairs:
      every question gets its own option shuffle, and the first question whose
      answer index matches no option aborts the variant. */
  method BuildQuestions(master: seq<MasterQuestion>, order: seq<(nat, MasterQuestion)>)
    returns (r: Option<seq<VariantQuestion>>, ghost optionDraws: seq<seq<nat>>)
    requires KeysFit(master)
    requires IsPermutedEnumeration(order, master)
    ensures r.None? ==> !AllAnswersValid(master)
    ensures r.Some? ==> |r.value| == |order| && |optionDraws| == |order|
    ensures r.Some? ==> forall p :: 0 <= p < |order| ==> BuiltAt(order, optionDraws, r.value, p)
  {
    var variantQuestions: seq<VariantQuestion> := [];
    optionDraws := [];
    var p := 0;
    while p < |order|
      invariant 0 <= p <= |order|
      invariant |variantQuestions| == p && |optionDraws| == p
      invariant forall t :: 0 <= t < p ==> BuiltAt(order, optionDraws, variantQuestions, t)
    {
      var (masterQNum, masterQ) := order[p];
      var newOptions, d := NewOptions(masterQ);
      var vq := NewVariantQuestion(masterQ.text, newOptions, masterQNum + 1);
      BuildQuestionFacts(masterQNum, masterQ, d);
      if vq.None? {
        assert !HasValidAnswer(master[masterQNum]);
        return None, optionDraws;
      }
      forall t | 0 <= t < p
        ensures BuiltAt(order, optionDraws + [d], variantQuestions + [vq.value], t)
      {
        BuiltAtExtend(order, optionDraws, variantQuestions, d, vq.value, t);
      }
      variantQuestions := variantQuestions + [vq.value];
      optionDraws := optionDraws + [d];
      assert BuiltAt(order, optionDraws, variantQuestions, p);
      p := p + 1;
    }
    r := Some(variantQuestions);
  }

  /** The loop that builds `num_variants` variants, variant `i` with index `i`.
      An exception in any of them aborts the whole generation; because whether
      a variant can be built does not depend on its shuffles, either all
      succeed or the first one fails. */
  method CreateVariants(master: seq<MasterQuestion>, numVariants: int) returns (r: Option<seq<seq<VariantQuestion>>>)
    requires KeysFit(master)
    ensures r.None? <==> numVariants > 0 && !AllAnswersValid(master)
    ensures r.Some? ==> |r.value| == (if numVariants > 0 then numVariants else 0)
    ensures r.Some? ==> forall i :: 0 <= i < |r.value| ==> IsVariantOf(master, i, r.value[i])
  {
    var variants: seq<seq<VariantQuestion>> := [];
    var i := 0;
    while i < numVariants
      invariant 0 <= i <= (if numVariants > 0 then numVariants else 0)
      invariant |variants| == i
      invariant forall t :: 0 <= t < i ==> IsVariantOf(master, t, variants[t])
      invariant i > 0 ==> AllAnswersValid(master)
    {
      var variant;
      ghost var questionDraws, optionDraws;
      variant, questionDraws, optionDraws := CreateTestVariant(master, i);
      if variant.None? {
        return None;
      }
      variants := variants + [variant.value];
      i := i + 1;
    }
    r := Some(variants);
  }

  /** The text of the first option that carries `key`, as a grader reads a key. */
  function OptionTextForKey(options: seq<VariantOption>, key: char): (r: Option<string>)
    ensures r.None? <==> forall j :: 0 <= j < |options| ==> options[j].key != key
    ensures r.Some? ==> exists j :: 0 <= j < |options| && options[j].key == key && options[j].text == r.value
  {
    if |options| == 0 then None
    else if options[0].key == key then Some(options[0].text)
    else OptionTextForKey(options[1..], key)
  }

  /** Reading a variant's answer key back: the option carrying the question's
      `correctKey` holds the correct option text of the master question that
      its `masterId` names. */
  lemma AnswerKeyRecoversMaster(master: seq<MasterQuestion>, variantIndex: int, v: seq<VariantQuestion>, p: int)
    requires IsVariantOf(master, variantIndex, v)
    requires 0 <= p < |v|
    ensures 1 <= v[p].masterId <= |master| && HasValidAnswer(master[v[p].masterId - 1])
    ensures var q := master[v[p].masterId - 1];
            OptionTextForKey(v[p].options, v[p].correctKey) == Some(q.options[q.correctAnswerIndex])
  {
    var q := master[v[p].masterId - 1];
    var opts := v[p].options;
    assert Matches(v[p], q);
    var j :| OnlyCorrectAt(opts, j) && opts[j].key == v[p].correctKey && opts[j].text == q.options[q.correctAnswerIndex];
    var r := OptionTextForKey(opts, v[p].correctKey);
    var i :| 0 <= i < |opts| && opts[i].key == v[p].correctKey && opts[i].text == r.value;
    assert opts[i].key as int == 65 + i && opts[j].key as int == 65 + j;
  }

  /** Any two variants of one master list agree on the correct answer text of
      every master question. */
  lemma AnswerKeysAgree(master: seq<MasterQuestion>, i: int, v: seq<VariantQuestion>, i': int, v': seq<VariantQuestion>,
                        p: int, p': int)
    requires IsVariantOf(master, i, v) && IsVariantOf(master, i', v')
    requires 0 <= p < |v| && 0 <= p' < |v'| && v[p].masterId == v'[p'].masterId
    ensures OptionTextForKey(v[p].options, v[p].correctKey) == OptionTextForKey(v'[p'].options, v'[p'].correctKey)
  {
    AnswerKeyRecoversMaster(master, i, v, p);
    AnswerKeyRecoversMaster(master, i', v', p');
  }
}
