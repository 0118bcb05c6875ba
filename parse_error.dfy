/** Why turning text such as "3/4" into a fraction failed.

    The taxonomy is generic over `E`, the error the numeric parser of a
    component (numerator or denominator) produces. What `E` displays as is a
    parameter `show` of the operations that need it, standing for `E`'s own
    `Display` implementation. */
module ParseError {

  import opened Wrappers

  /** Message rendered for `IncorrectForm`; written as two literals because the
      verifier does not look inside a single literal of this length. */
  const INCORRECT_FORM_MESSAGE: string := "Incorrectly formed fraction " + "(format should be <D>/<N>)"

  /** Message rendered for `ZeroDenominator`. */
  const ZERO_DENOMINATOR_MESSAGE: string := "Fraction denominator cannot be zero"

  /** Text put in front of the wrapped error's own text for `NumParseErr`. */
  const NUM_PARSE_PREFIX: string := "Error when parsing fraction: "

  /** The three ways parsing a fraction can fail. */
  datatype FractionParseErr<E> =
    | IncorrectForm      // the text is not of the shape <numerator>/<denominator>
    | ZeroDenominator    // both parts parsed, but the denominator is zero
    | NumParseErr(err: E) // a part did not parse as a number; `err` says why
  {
    /** The wrapped numeric-parse error, if that is what this error is. */
    function TakeNumParseErr(): (r: Option<E>)
      ensures r.Some? <==> NumParseErr?
      ensures NumParseErr? ==> r == Some(err)
    {
      match this
      case NumParseErr(e) => Some(e)
      case _ => None
    }

    /** Whether a numeric-parse error is wrapped: exactly when there is one
        to take. */
    function IsNumParseErr(): (b: bool)
      ensures b <==> TakeNumParseErr().Some?
      ensures b ==> TakeNumParseErr() == Some(err)
    {
      match this
      case NumParseErr(_) => true
      case _ => false
    }

    /** The human-readable message: a fixed text per variant, and for
        `NumParseErr` the fixed prefix followed by the wrapped error's own
        text. */
    function Render(show: E -> string): (s: string)
      ensures IncorrectForm? ==> s == "Incorrectly formed fraction (format should be <D>/<N>)"
      ensures ZeroDenominator? ==> s == "Fraction denominator cannot be zero"
      ensures NumParseErr? ==>
                && |s| == |NUM_PARSE_PREFIX| + |show(err)|
                && s[..|NUM_PARSE_PREFIX|] == "Error when parsing fraction: "
                && s[|NUM_PARSE_PREFIX|..] == show(err)
    {
      match this
      case IncorrectForm => INCORRECT_FORM_MESSAGE
      case ZeroDenominator => ZERO_DENOMINATOR_MESSAGE
      case NumParseErr(e) => NUM_PARSE_PREFIX + show(e)
    }

    /** The cause of this error in an error chain: the wrapped numeric-parse
        error, and nothing for the two variants that wrap none. */
    function Source(): (r: Option<E>)
      ensures r == TakeNumParseErr()
      ensures r.Some? <==> IsNumParseErr()
    {
      match this
      case NumParseErr(e) => Some(e)
      case _ => None
    }

    /** The same error with its payload replaced by the payload's text. */
    function MapErr<F>(f: E -> F): (r: FractionParseErr<F>)
      ensures r.IncorrectForm? <==> IncorrectForm?
      ensures r.ZeroDenominator? <==> ZeroDenominator?
      ensures r.NumParseErr? <==> NumParseErr?
      ensures NumParseErr? ==> r.err == f(err)
    {
      match this
      case IncorrectForm => IncorrectForm
      case ZeroDenominator => ZeroDenominator
      case NumParseErr(e) => NumParseErr(f(e))
    }
  }

  /** Identity rendering for an error whose payload already is text. */
  function Text(t: string): string { t }

  /** Reads a rendered message back: the error it was rendered from, with the
      wrapped numeric-parse error replaced by its text; `None` for text that
      no error renders as. */
  function ParseMessage(s: string): (r: Option<FractionParseErr<string>>)
    ensures r.Some? ==> r.value.Render(Text) == s
    ensures r == None <==>
              && s != INCORRECT_FORM_MESSAGE
              && s != ZERO_DENOMINATOR_MESSAGE
              && !(|NUM_PARSE_PREFIX| <= |s| && s[..|NUM_PARSE_PREFIX|] == NUM_PARSE_PREFIX)
  {
    if s == INCORRECT_FORM_MESSAGE then Some(IncorrectForm)
    else if s == ZERO_DENOMINATOR_MESSAGE then Some(ZeroDenominator)
    else if |NUM_PARSE_PREFIX| <= |s| && s[..|NUM_PARSE_PREFIX|] == NUM_PARSE_PREFIX then
      assert s == NUM_PARSE_PREFIX + s[|NUM_PARSE_PREFIX|..];
      Some(NumParseErr(s[|NUM_PARSE_PREFIX|..]))
    else None
  }

  /** Reading back what was rendered recovers the variant, and for
      `NumParseErr` exactly the wrapped error's text. */
  lemma RenderRoundTrip<E>(x: FractionParseErr<E>, show: E -> string)
    ensures ParseMessage(x.Render(show)) == Some(x.MapErr(show))
  {
    match x
    case IncorrectForm =>
    case ZeroDenominator =>
    case NumParseErr(e) =>
      var s := x.Render(show);
      assert s[0] == 'E';
      assert INCORRECT_FORM_MESSAGE[0] == 'I';
      assert ZERO_DENOMINATOR_MESSAGE[0] == 'F';
  }

  /** The message determines the error up to the text of its payload: two
      errors with the same message are the same variant, and two wrapped
      errors with the same message display alike. */
  lemma RenderDeterminesVariant<E>(x: FractionParseErr<E>, y: FractionParseErr<E>, show: E -> string)
    requires x.Render(show) == y.Render(show)
    ensures x.IncorrectForm? <==> y.IncorrectForm?
    ensures x.ZeroDenominator? <==> y.ZeroDenominator?
    ensures x.NumParseErr? <==> y.NumParseErr?
    ensures x.NumParseErr? ==> show(x.err) == show(y.err)
  {
    RenderRoundTrip(x, show);
    RenderRoundTrip(y, show);
  }

  /** Each variant's message differs from the other two variants' messages,
      whatever the wrapped errors display as. */
  lemma MessagesDistinct<E>(e: E, show: E -> string)
    ensures IncorrectForm.Render(show) != ZeroDenominator.Render(show)
    ensures NumParseErr(e).Render(show) != IncorrectForm.Render(show)
    ensures NumParseErr(e).Render(show) != ZeroDenominator.Render(show)
  {
    RenderRoundTrip(NumParseErr(e), show);
    RenderRoundTrip(IncorrectForm, show);
    RenderRoundTrip(ZeroDenominator, show);
  }

  /** The cause of a wrapped error displays exactly as the wrapped error, and
      the whole message ends with that cause's text. */
  lemma SourceDisplaysAsWrapped<E>(x: FractionParseErr<E>, show: E -> string)
    requires x.NumParseErr?
    ensures x.Source().Some?
    ensures show(x.Source().value) == show(x.err)
    ensures x.Render(show) == NUM_PARSE_PREFIX + show(x.Source().value)
  {
  }

  /** Derived equality: errors are equal exactly when they are the same
      variant with equal payloads. */
  lemma EqualityByVariant<E>(x: FractionParseErr<E>, y: FractionParseErr<E>)
    ensures x == y <==>
              || (x.IncorrectForm? && y.IncorrectForm?)
              || (x.ZeroDenominator? && y.ZeroDenominator?)
              || (x.NumParseErr? && y.NumParseErr? && x.err == y.err)
  {
  }
}
