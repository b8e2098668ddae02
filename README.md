# Test variant builder: a verified model

This project models the part of the test generator that turns one master
list of multiple-choice questions into shuffled test variants, and renders a
variant as a markdown document and as plain text.

- **Records.** A master question has a text, a list of option texts and the
  index of the correct option.
- **Building a variant** (`create_test_variant`):
  - for every variant except the first (variant index 0), shuffle the order of
    the `(index, question)` pairs;
  - for every question, shuffle its `(index, option)` pairs;
  - give the option at new position `j` the key `chr(65 + j)`;
  - mark an option correct exactly when its original index is the master's
    `correct_answer_index`;
  - record the master position plus one as `master_id`.
- **The correct key.** Building a `VariantQuestion` derives `correct_key` as
  the key of the first correct option. When no option is correct, Python's
  `next` raises and the variant is not built.
- **Rendering.** Each renderer walks one variant in order. It emits a header,
  the numbered questions with their keyed options, and an answer key.

The model is split into three modules.

- `Shuffle` (`shuffle.dfy`) models `random.shuffle`:
  - It is the Fisher–Yates loop over an array of pairs. At each step `i`
    (from `n-1` down to `1`) an arbitrary index `j` in `[0, i]` is picked and
    positions `i` and `j` are swapped.
  - The picks are recorded in a ghost sequence `draws`.
  - The array afterwards equals the functional `Shuffled(original, draws)`, so
    every property of a shuffle is proved once, for all possible picks.
- `Variant` (`variant.dfy`) holds:
  - the records;
  - the `correct_key` derivation;
  - `create_test_variant`, split into its two loops;
  - the loop that builds `num_variants` variants.

  The central specification is `IsVariantOf(master, i, v)`:
  - the master ids of `v` are a permutation of `1..N`, and are in order for
    variant index 0;
  - each question has its master question's text;
  - its option texts are a permutation of the master's options;
  - its keys are `chr(65), chr(66), …` by position;
  - exactly one option is correct, and that option carries the master's
    correct text and the question's `correct_key`.
- `Render` (`render.dfy`) holds the markdown and plain-text renderers:
  - Each renderer is a loop proved equal to a document defined by recursive
    functions.
  - Readers parse answer-key lines back. Round-trip lemmas show that each
    markdown key line names its question number, master id and key, and that
    each plain-text key line names its question number and key.

Randomness is an arbitrary choice (`:|`). The UUID and the translation lookup
`t` are parameters.

## Model

| member | source | states |
|---|---|---|
| Shuffle.ShuffleInPlace | app.py:159-160 | `random.shuffle` of a list in place: after the loop the array is `Shuffled(old contents, draws)` for a complete set of picks, one pick `draws[k] <= n-1-k` per step; the loop invariant is carried by the step lemma `ShuffledStep`, which extends the shuffle by one swap |
| Shuffle.ShuffledPreservesMultiset | app.py:167-168 | a shuffle is a permutation: the multiset of elements is unchanged for every sequence of picks |
| Shuffle.ShuffledKeepsDistinct | app.py:159-160 | shuffling never duplicates an element: distinct elements stay distinct |
| Shuffle.SecondsOfShuffled | app.py:167-168 | shuffling `(index, text)` pairs and then taking the texts equals shuffling the texts |
| Shuffle.ShuffledEnumerateIsPermutation | app.py:154-156 | a shuffled `enumerate(s)` holds only pairs `(i, s[i])`, never repeats an index and contains every index |
| Variant.FirstCorrectKey | app.py:102 | `next(opt.key for opt in options if opt.is_correct)`: `None` (StopIteration) exactly when no option is correct; otherwise the key of the first correct option |
| Variant.NewVariantQuestion | app.py:95-102 | building a `VariantQuestion` succeeds exactly when some option is correct; fields are copied, `correctKey` is the first correct option's key |
| Variant.KeyOptions | app.py:170-178 | the keying loop produces, position by position, the options `KeyedOptions(pairs, correctIndex)`; `KeyedOption` is the per-position definition the loop is proved against (key `chr(65 + j)`, the pair's text, correct exactly when the original index is the answer index) |
| Variant.KeyedPermutationFacts | app.py:172-178 | keying a permuted enumeration keeps the option count and the text multiset; an in-range answer index yields exactly one correct option, carrying the master's correct text; an out-of-range index yields none |
| Variant.ShuffledOptionsFacts | app.py:166-178 | the shuffled and keyed options of a master question have its option count and texts (as a multiset), and exactly one correct option with the correct text when the index is in range, else none |
| Variant.NewOptions | app.py:166-178 | shuffling `enumerate(options)` in place and keying the result yields `ShuffledOptions(q, draws)` for complete picks `draws` |
| Variant.BuildQuestionFacts | app.py:162-182 | a question can be built exactly when the master's answer index is in range; it then has `masterId == k+1` and matches its master question |
| Variant.OrderQuestions | app.py:154-160 | the visiting order is `enumerate(master)`, shuffled only when `variant_index > 0`; it is a permuted enumeration either way |
| Variant.OrderIsPermutation | app.py:154-160 | the question order is a permuted enumeration of the master list, and equals it for variant index 0 and below |
| Variant.BuildQuestions | app.py:162-184 | the loop over the order returns `None` only when some master answer is out of range; otherwise position `p` holds the question built from `order[p]` and its option picks |
| Variant.BuiltIdsArePermutation | app.py:162-182 | master ids `order[p].0 + 1` over a permuted enumeration are a permutation of `1..N` |
| Variant.BuiltQuestionsMatchMaster | app.py:162-182 | every built question matches the master question its id names, and then all master answers are valid |
| Variant.BuiltQuestionsFormVariant | app.py:148-184 | the questions built along the order form a variant of the master list; for variant 0 position `p` has id `p+1` and the master's text |
| Variant.CreateTestVariant | app.py:148-184 | a variant is returned exactly when every master answer index is in range; it is then `IsVariantOf(master, variantIndex, v)`, unshuffled in question order for index 0, and equal to the built questions for the recorded picks |
| Variant.CreateVariants | app.py:233-235 | `num_variants` variants are built, variant `i` with index `i`; generation fails exactly when `num_variants > 0` and some answer index is out of range; otherwise each result `i` is a variant of the master list |
| Variant.AnswerKeyRecoversMaster | app.py:172-182 | in any variant, the option carrying `correctKey` holds the correct text of the master question named by `masterId` |
| Variant.AnswerKeysAgree | app.py:233-235 | two variants of one master list agree on the correct answer text of every master question, whatever their shuffles |
| Render.DecimalString | app.py:270 | `str(n)` gives a non-empty string of decimal digits without a leading zero |
| Render.DecimalRoundTrip | app.py:270 | the digits of `str(n)` read back to `n` |
| Render.ShortId | app.py:259 | `str(uuid)[:8]`: a prefix of the UUID string of length at most eight |
| Render.RenderMarkdown | app.py:256-279 | the loop produces exactly `MarkdownDocument`: the header, the question blocks numbered by position with options in stored order, the key header, one key line per position |
| Render.RenderPlainText | app.py:282-308 | the loop produces exactly `PlainTextDocument`, the plain-text counterpart |
| Render.MdKeyLineRoundTrip | app.py:277 | reading a markdown answer-key line gives back the question number, the master id and the correct key |
| Render.PlainKeyLineRoundTrip | app.py:306 | reading a plain-text answer-key line gives back the question number and the correct key |
| Render.MdAnswerKeyPrefix | app.py:268-277 | the markdown answer key of the first `k` questions is a prefix of the whole key |
| Render.PlainAnswerKeyPrefix | app.py:293-306 | the plain-text answer key of the first `k` questions is a prefix of the whole key |
| Render.AnswerKeyLinesAt | app.py:268-306 | in both answer keys the line for position `q` follows the lines for positions before it, and both lines read back the same number `q+1` and the same key |
| Render.MdKeyLineGradesAgainstMaster | app.py:277 | for a variant of the master list, the markdown key line at position `q` reads back a master id in range and a key whose option holds that master question's correct answer |

## Left out

- Variant.CreateTestVariant: requires every master question to have fewer than `0xD800 - 65` options. Dafny characters exclude the UTF-16 surrogate range, so `chr(65 + j)` cannot be represented past that point. The same bound appears on `Variant.CreateVariants`, `Variant.BuildQuestions`, `Variant.NewOptions`, `Variant.KeyOptions` and `Variant.KeyedOption`.
- Variant.CreateVariants: returns `None` for the whole run when a variant cannot be built. In the source the `StopIteration` from app.py:102 is caught by `except Exception` (app.py:250-252), which sets the error message and the status FAILED. Whether a variant can be built depends only on the answer indices, so variant 0 already fails and the variant list emptied at app.py:232 stays empty, while `test_data` (app.py:229) stays set. That session state is not modelled.
- Render.RenderMarkdown: the request fields are modelled as three strings. A missing key, for which `req_data.get` prints `None`, is not modelled.
- Render.RenderPlainText: same simplification of the request fields as `Render.RenderMarkdown`.
- The master records are modelled as well-formed (`text`, `options` and an integer `correct_answer_index`). The source does not validate them, and a missing field raises `KeyError`, which the model does not represent.
- `generated_data.get('questions', [])` is modelled as the master list passed in; parsing the model's JSON reply (`json.loads`) is left out as a foreign parser.
- The Gemini request, the response schema (`get_test_schema`) and the mapping of SDK exceptions to messages are left out. They are network and SDK calls.
- The Streamlit interface, session-state flags, tabs, download buttons, file names and the HTML/JS clipboard button are left out. They are user interface.
- `uuid.uuid4()` is an input string and the translation lookup `t` (`utils.py`, file I/O and a dictionary in session state) is a function parameter.
- Randomness is modelled as arbitrary picks, so the model says nothing about the distribution of shuffles.
