# code_error — a Dafny model of `CodeError::Base`

`CodeError::Base` (lib/code_error.rb) is a Ruby exception class for coded
errors. A subclass declares its codes by overriding `error_codes` (a hash from
code to `{status, msg, masked}`) and may override `config` (the success and
internal code/status/message, the masked message text and where the code goes
in the rendered message, `code_in_msg`). Constructing an error classifies the
requested code into one of three branches — a key of `error_codes`, the
success code, or anything else, which becomes an internal error — and stores
`@code`, `@status`, `@msg`, `@masked` and `@info`. Rendering (`msg`, `data`)
chooses the masked text or the stored message, then appends `(code)` or
prepends it, except for the success code.

The project:

- `wrappers.dfy` — `Option` and `Result`.
- `ruby_value.dfy` — module `RubyValue`: the Ruby values the library
  inspects (`nil`, booleans, integers, symbols, strings), truthiness, `||`,
  and string interpolation (`Integer#to_s` written out in decimal).
- `code_error.dfy` — module `CodeError`: the constants, the default `config`,
  classification (`Classify`, `Resolve`, `New`), the constructor as an
  imperative method (`Initialize`), and rendering (`EffectiveMasked`,
  `Annotate`, `ShowMessage`, `Msg`, `Data`, `IsInternal`).
- `code_error_properties.dfy` — module `CodeErrorProperties`: lemmas that
  relate construction to rendering.
- `code_error_examples.dfy` — module `CodeErrorExamples`: the scenarios of
  test/test_new.rb and test/test_code_in_msg.rb as lemmas.

Modelling choices:

- The two hooks are parameters: `error_codes` is an
  `Option<map<Value, Entry>>` (`None` is the base class's hook, which raises),
  `config` a `Config` record. A hash key that an entry lacks reads as `Nil`.
- A Ruby error object is never changed after `initialize` (it has only
  readers), so the resolved error is a value, `Error<I>`, with `I` the type of
  the opaque `info`. `Initialize` assigns the instance variables in the
  constructor's order, with its overwrites of `@masked`, `@msg` and `@code`,
  and is proved equal to `New`, which states the outcome branch by branch
  through `Resolve`. Rendering functions take the error and return a value, so
  rendering cannot change the error's fields.
- Ruby's default arguments (`code = nil, msg = nil, info = {}`) are passed
  explicitly: `Nil`, `Nil` and whatever `info` value the caller chooses.
- The `:masked` argument is kept as the symbol `Sym("masked")`. For a code
  that is neither a key, the success code nor a String,
  `@msg = msg || internal msg` stores that symbol as the message, so the error
  renders the text `masked`, unmasked, with the code placed according to
  `code_in_msg` (the kept code, or the internal code when the requested code
  is `nil` or `false`). The model keeps this behaviour;
  `MaskedArgumentOnUnknownCodeIsText` states it.
- The position setting compares against the symbol `:prepand`, spelt as in
  the source; `:prepend` or any other setting leaves the text without the code.
- The tests test/test_masked.rb, test/test_pos.rb and test/test_config.rb
  exercise a class-level declaration API with layered masking and position
  defaults, a `:prepend` setting and a space between text and code. None of
  that is in lib/code_error.rb; the model follows lib/code_error.rb.

## Model

| member | source | states |
|---|---|---|
| RubyValue.Or | lib/code_error.rb:40-41 | Ruby's short-circuit `or` of `a` and `b` is `a` when `a` is truthy, else `b`; the result is truthy iff either operand is |
| RubyValue.Digits | lib/code_error.rb:94-96 | the decimal form interpolated for a non-negative integer code is non-empty, all digits, and has no leading zero unless the number is 0 |
| RubyValue.IntToS | lib/code_error.rb:94-96 | an integer code prints non-empty, starting with `-` exactly when it is negative, and all digits after that sign |
| RubyValue.ToS | lib/code_error.rb:94-96 | interpolation of `nil` gives the empty string and of an integer its sign and decimal digits |
| RubyValue.DigitsInjective | lib/code_error.rb:94-96 | two naturals with the same decimal digits are equal |
| RubyValue.IntToSInjective | lib/code_error.rb:94-96 | two integers that print the same are equal |
| CodeError.Resolve | lib/code_error.rb:16-44 | a key keeps its code and the entry's status even if it equals the success code; `:masked` forces masking on and keeps the entry message; a String `msg` replaces the message and forces masking off; any other `msg` keeps the entry's message and masking (never nil); the success code gets the success code, status and message with no stored flag; every other code gets the internal status, a String code becomes the internal code with itself as the message, `nil`/`false` become the internal code, anything else is kept, and the message is `msg` or else the internal message |
| CodeError.New | lib/code_error.rb:65-67 | construction fails with the base class's RuntimeError exactly when `error_codes` is not provided, and never yields an internal error in that case |
| CodeError.Initialize | lib/code_error.rb:16-44 | the step-by-step assignments of `initialize`, including its overwrites, produce exactly the outcome `New` states |
| CodeError.Annotate | lib/code_error.rb:91-99 | the success code is never placed in the text; any other code is appended as `text(code)` under `:append`, prepended as `(code)text` under `:prepand`, and left out under any other setting; the result differs from the text exactly when a code is placed (a non-success code under `:append` or `:prepand`) |
| CodeError.ShowMessage | lib/code_error.rb:86-100 | a non-nil masking argument decides by its truthiness between the masked text and the message; with a nil argument the stored flag's truthiness decides, so a stored `nil` means unmasked; the chosen text is then annotated |
| CodeError.Msg | lib/code_error.rb:55-57 | `msg(m)` renders the error's own code and message under the same precedence: explicit argument, else the stored flag, else unmasked |
| CodeError.Data | lib/code_error.rb:50-53 | `data(m)` carries the error's status, code and info, and for the success error its text without the code; `DataAgreesWithMsg` states that its text is exactly `msg(m)` |
| CodeError.IsInternal | lib/code_error.rb:59-61 | holds exactly when the status is the configured internal status; `UnknownCodeIsInternal` and `KnownCodeInternalIffEntryStatus` state what that means per branch |
| CodeErrorProperties.MaskedArgumentMasksKnownCode | lib/code_error.rb:23-24 | a known code built with `:masked` keeps its entry message but renders the masked text by default |
| CodeErrorProperties.TextArgumentUnmasksKnownCode | lib/code_error.rb:25-27 | a known code built with a String renders that String by default, even when its entry is masked |
| CodeErrorProperties.NoArgumentKeepsEntry | lib/code_error.rb:20-22 | a known code built without `msg` renders the masked text if its entry's `:masked` is truthy, else the entry message |
| CodeErrorProperties.KnownKeyBeatsSuccessCode | lib/code_error.rb:19-32 | a key equal to the success code keeps that code and takes the entry's status, and for every `msg` and rendering flag renders the masked text or its message without the code; with no `msg` and an unmasked entry that message is the entry's |
| CodeErrorProperties.SuccessRendersBare | lib/code_error.rb:29-32 | the success code yields the success status, is unmasked by default, and renders the bare success message whatever `code_in_msg` is; masked on request it renders the bare masked text |
| CodeErrorProperties.UnknownCodeIsInternal | lib/code_error.rb:33-43 | every code that is neither a key nor the success code yields an error for which `internal?` holds |
| CodeErrorProperties.KnownCodeInternalIffEntryStatus | lib/code_error.rb:59-61 | for a known code `internal?` holds exactly when the entry's status is the internal status |
| CodeErrorProperties.MaskedArgumentOnUnknownCodeIsText | lib/code_error.rb:40-41 | for a code that is neither a key, the success code nor a String, `:masked` becomes the stored message and is rendered as text annotated with the kept code (the internal code for `nil`/`false`), not as a masking request |
| CodeErrorProperties.ExplicitMaskBeatsStored | lib/code_error.rb:86-90 | a non-nil masking argument decides the text regardless of the stored flag |
| CodeErrorProperties.StoredMaskWithoutArgument | lib/code_error.rb:87-90 | without an argument the stored flag's truthiness decides, and a stored `nil` means unmasked |
| CodeErrorProperties.DataAgreesWithMsg | lib/code_error.rb:50-57 | `data(m)` holds the error's status, code and info and exactly the message `msg(m)` renders |
| CodeErrorProperties.AnnotationIdentifiesCode | lib/code_error.rb:91-99 | under `:append` or `:prepand`, two non-success integer codes that render the same text to the same message are the same code |
| CodeErrorExamples.MissingErrorCodesRaises | test/test_new.rb:37-39 | a class without `error_codes` fails to construct |
| CodeErrorExamples.DefinedCode | test/test_new.rb:41-52 | code 1 keeps its code and status, renders `The error message for code 1.(1)`, its data matches, and it is not internal |
| CodeErrorExamples.UndefinedCode | test/test_new.rb:54-60 | code 55688 keeps its code, gets the internal status and message with `(55688)` appended, and is internal |
| CodeErrorExamples.StringCode | test/test_new.rb:62-69 | a String code becomes code 99999 with that String as its message, and is internal |
| CodeErrorExamples.SuccessCodeExample | test/test_new.rb:71-77 | code 0 gets the success status and renders the empty message |
| CodeErrorExamples.MaskedArgument | test/test_new.rb:79-85 | code 1 built with `:masked` renders `An error occurs.(1)` |
| CodeErrorExamples.MaskedByEntry | test/test_new.rb:87-93 | code 2, masked by its entry, renders `An error occurs.(2)` |
| CodeErrorExamples.InfoKept | test/test_new.rb:95-99 | the info given at construction is kept |
| CodeErrorExamples.CodeInMsgSettings | test/test_code_in_msg.rb:64-84 | `:append`, `:prepand` and `:none` render `msg(1)`, `(1)msg` and `msg`, and the success code renders bare under both placements |

## Left out

- `message` (lib/code_error.rb:46-48): it is `Hash#inspect` of `data`, a Ruby library format not given in lib/code_error.rb.
- Raising and the `StandardError` superclass: the one raise (the base `error_codes`) is a `Failure` result; propagation is not modelled.
- Ruby objects other than `nil`, booleans, integers, symbols and strings as codes, messages or settings (floats, hashes, arrays, custom objects): their `==` and `to_s` are not modelled; `info` is an opaque type parameter.
- `error_codes` and `config` are treated as pure: an override with side effects or one returning different hashes on different calls is not modelled.
- The class-level declaration API (`error_codes(...)` as a class macro, `gen`, `success`, `internal`, `masked_msg`, `pos`) and the formats used in test/test_gen.rb, test/test_masked.rb, test/test_pos.rb and test/test_config.rb: that code is not part of this model.
