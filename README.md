# Quote bank and whitespace tokenizer of typing-test

The typing-test application draws its practice passages from `texts.js`,
which holds two things:

- the factory `words(text)`, which returns a parameterless function that
  splits `text` at every single whitespace character (`split(/\s/)`) and then
  keeps only the non-empty pieces (`filter(e => e.length != 0)`);
- the default export: a constant, ordered list of nine records
  `{ from, text }`, where `from` names a work and its author and `text` is
  `words(passage)` for a multi-line template-literal passage.

This project models both in Dafny.

- Module `Tokenizer` (`words.dfy`):
  - `IsWs` is ECMAScript's `\s` class, written out code point by code point.
  - `Split` models `String.prototype.split` with a one-character separator class.
  - `NonEmpty` models the filter, and `Tokenize` is the composition of the two.
  - `Thunk` is the closure: a captured string with a parameterless `Eval()`.
  - `Words` is the factory.
  - `Runs` is an independent reference definition: the maximal
    non-whitespace runs, left to right. `TokenizeIsRuns` proves that
    split-then-filter computes exactly that.
- Module `QuoteBank` (`quote_bank.dfy`):
  - `Bank` holds the nine records in source order.
  - Each passage is transcribed line by line. That includes the leading
    newline, the eight-space indentation, the blank line in the Gatsby
    passage, the trailing spaces after the last sentence of the
    Frankenstein passage, and the indentation before the closing backtick.
  - Each record's `text` field is `Thunk(passage)`, the value `Words(passage)` returns.

## Model

| member | source | states |
|---|---|---|
| Tokenizer.Split | texts.js:4 | `split(/\s/)` gives exactly one piece more than there are whitespace characters, so `""` gives one empty piece |
| Tokenizer.SplitInverse | texts.js:4 | splitting loses nothing: putting the separators back between the pieces, in order, rebuilds the input |
| Tokenizer.SplitAtSeparator | texts.js:4 | splitting a text at one whitespace character splits the two sides independently and concatenates the results |
| Tokenizer.SplitNoWs | texts.js:4 | no piece of the split contains a whitespace character |
| Tokenizer.NonEmptyFilters | texts.js:4 | the filter `e.length != 0` never lengthens the list, removes every empty piece, leaves a list without empty pieces unchanged, and empties a list of empty pieces |
| Tokenizer.NonEmptyKeepsTokens | texts.js:4 | pieces that are free of whitespace become, after the filter, a list of non-empty whitespace-free tokens |
| Tokenizer.TokenizeTokens | texts.js:1-4 | every token is non-empty and contains no whitespace character |
| Tokenizer.ConcatTokenize | texts.js:1-4 | concatenating the tokens in order gives the input with every whitespace character deleted, so content and order are preserved |
| Tokenizer.Thunk.Eval | texts.js:4 | calling the thunk yields non-empty, whitespace-free tokens that spell the captured text without its whitespace |
| Tokenizer.Words | texts.js:3-5 | the thunk made by `words(text)` evaluates to the maximal non-whitespace runs of `text` |
| Tokenizer.TokenizeIsRuns | texts.js:4 | split-then-filter equals the reference definition of maximal non-whitespace runs, so leading, trailing and repeated whitespace never makes a token |
| Tokenizer.TokenizeEmptyIff | texts.js:4 | the result is empty if and only if the input is empty or all whitespace |
| Tokenizer.TokenizeSingleIff | texts.js:4 | the result is the one-element list of the input itself if and only if the input is non-empty and has no whitespace |
| Tokenizer.TokenizeWord | texts.js:4 | a non-empty whitespace-free input is one token, the whole input |
| Tokenizer.TokenizeAtSeparator | texts.js:4 | tokenizing across one whitespace character gives the tokens of the left side followed by those of the right side |
| Tokenizer.TokenizeSkipWs | texts.js:4 | a leading whitespace character contributes no token |
| Tokenizer.TokenizeAfterBlank | texts.js:12-13 | whitespace in front of a text, such as a template literal's opening newline and indentation, changes none of its tokens |
| Tokenizer.TokenizeBeforeBlank | texts.js:77-78 | whitespace after a text, such as trailing spaces and the closing indentation, changes none of its tokens |
| Tokenizer.LeadingWord | texts.js:4 | after leading whitespace, a word followed by a separator is the first token |
| Tokenizer.TrailingWord | texts.js:4 | a word between a separator and trailing whitespace is the last token |
| Tokenizer.TokenizeJoinSpace | texts.js:4 | a list of tokens joined with single spaces tokenizes back to the same list |
| Tokenizer.RoundTrip | texts.js:4 | tokenizing the single-space join of `words(t)()` gives `words(t)()` again |
| Tokenizer.SameWordsIff | texts.js:4 | two texts have the same word list if and only if their single-space canonical forms are equal |
| QuoteBank.BankAttributions | texts.js:9-88 | the bank has exactly nine records, every `from` is non-empty, and no two `from` values are equal |
| QuoteBank.PassagesNotBlank | texts.js:9-88 | no record's passage is empty or all whitespace |
| QuoteBank.BankWordLists | texts.js:7-8 | every record's `text` evaluates to a non-empty list of non-empty, whitespace-free words |
| QuoteBank.FrankensteinLastWord | texts.js:73-78 | the spaces after the last sentence of the Frankenstein passage make no token, and its last word is `solitude.` |

## Left out

- Characters: the model works on Unicode scalar values, while JavaScript
  strings are UTF-16 code units. Every `\s` character lies in the Basic
  Multilingual Plane and a surrogate is never whitespace, so splitting
  either way gives the same pieces. The passages hold no character outside
  that plane.
- Laziness and allocation: the arrow function at texts.js:4 is modelled as
  a captured string plus a deterministic evaluation. A fresh array per call
  and JavaScript evaluation order carry no property to state.
- Idempotence of calling a record's `text` twice: `Eval` is a Dafny
  function, so two calls are equal by definition and no lemma is needed.
- The `export default` module plumbing (texts.js:9): `Bank` is a module
  constant.
- The optional `limit` argument of `split` and the general regular-expression
  engine: only the one-character class `/\s/` is modelled.
- Concrete tokenizations of short literal strings are not stated as lemmas.
  The general lemmas `TokenizeEmptyIff`, `TokenizeIsRuns`, `LeadingWord` and
  `TrailingWord` state those results for every input of the same shape.
- The full word list of each passage is not stated. Per record, the model
  proves non-emptiness and the token properties, plus the Frankenstein
  last-word lemma.
- Any consumer of the bank (rendering, input capture, scoring, timing) is
  not part of this model.
