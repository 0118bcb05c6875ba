# FractionParseErr — a Dafny model

This project models the error taxonomy of the `fractions-rs` crate. `FractionParseErr<E>` says why turning text such as "3/4" into a fraction failed. It has three variants:

- `IncorrectForm`: the text is not `<numerator>/<denominator>`.
- `ZeroDenominator`: the denominator parsed as zero.
- `NumParseErr(E)`: a component did not parse as a number. `E` is the numeric parser's own error.

The model covers the four operations of the type:

- `num_parse_err` becomes `TakeNumParseErr`.
- `is_num_parse_err` becomes `IsNumParseErr`.
- `Display::fmt` becomes `Render`.
- `Error::source` becomes `Source`.

The type is a Dafny `datatype` in module `ParseError` (`parse_error.dfy`). `Option` lives in module `Wrappers` (`wrappers.dfy`). The `Display` implementation of the wrapped `E` is a parameter `show: E -> string`. The rendered message is a `string` value.

Each operation has a partner:

- `IsNumParseErr` and `Source` are tied to `TakeNumParseErr`.
- `Render` has an inverse, `ParseMessage`. It reads a message back into the error it came from, with the wrapped error replaced by its text.
- The round trip between the two is proved for every error and every `show`. From it follows that the message determines the variant, and for `NumParseErr` the wrapped error's text.

## Model

| member | source | states |
|---|---|---|
| ParseError.FractionParseErr.TakeNumParseErr | src/fractions/parse_error.rs:13-19 | the result is `Some` exactly for `NumParseErr`, and then it holds the wrapped error unchanged; `None` for `IncorrectForm` and `ZeroDenominator` |
| ParseError.FractionParseErr.IsNumParseErr | src/fractions/parse_error.rs:21-27 | true exactly when `TakeNumParseErr` yields `Some`, i.e. exactly for `NumParseErr`, never for the other two variants |
| ParseError.FractionParseErr.Render | src/fractions/parse_error.rs:30-41 | `IncorrectForm` renders exactly "Incorrectly formed fraction (format should be <D>/<N>)", `ZeroDenominator` exactly "Fraction denominator cannot be zero", `NumParseErr(e)` as "Error when parsing fraction: " followed by exactly `show(e)`, its length the prefix's plus `show(e)`'s |
| ParseError.FractionParseErr.Source | src/fractions/parse_error.rs:43-50 | the cause is present exactly for `NumParseErr`, where it is the wrapped error; it agrees with `TakeNumParseErr` and with `IsNumParseErr` |
| ParseError.ParseMessage | src/fractions/parse_error.rs:32-39 | the inverse of the display: any error it reads back renders to the given text, and it reads back nothing exactly when the text is neither fixed message nor starts with the `NumParseErr` prefix |
| ParseError.RenderRoundTrip | src/fractions/parse_error.rs:32-39 | reading back any rendered error gives that error's variant, and for `NumParseErr(e)` exactly `show(e)` |
| ParseError.RenderDeterminesVariant | src/fractions/parse_error.rs:32-39 | two errors with the same message are the same variant, and wrapped errors with the same message display alike |
| ParseError.MessagesDistinct | src/fractions/parse_error.rs:33-38 | the three variants' messages differ pairwise, whatever the wrapped error displays as |
| ParseError.SourceDisplaysAsWrapped | src/fractions/parse_error.rs:37-49 | for `NumParseErr` the cause is present, displays as the wrapped error, and the message is the prefix followed by the cause's text |
| ParseError.EqualityByVariant | src/fractions/parse_error.rs:5-10 | derived equality: two errors are equal exactly when they are the same variant with equal payloads |

## Left out

- The `fmt::Formatter` and `fmt::Result` behind `write!` (src/fractions/parse_error.rs:31-39) are an output sink outside this code. The message is modelled as the `string` that would be written, and a failing write is not modelled.
- The derived `Debug` output (src/fractions/parse_error.rs:5) is generated by the compiler, and its text is not visible in this code.
- Source: returns `Option<E>` rather than a borrowed `dyn Error + 'static` trait object, because lifetimes and trait objects have no behavioural content in a value model. The cause's own `source` chain (the `Error` implementation of `E`) is not modelled.
- TakeNumParseErr: takes `self` by value in Rust, which is ownership only. In a value model the original error is still available afterwards.
- The fraction parser that produces these errors is not part of this model. Neither is the numeric parser whose errors `NumParseErr` wraps.
