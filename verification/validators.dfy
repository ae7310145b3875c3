/** Input validators for the two request parameters. */
module Validators {
  import opened Wrappers
  import opened Text
  import opened Schemas

  datatype ValidationError =
    | EmptyCountryCode          // "Country code cannot be empty"
    | WrongLength(length: int)  // "Country code must be exactly 2 characters, got N"
    | NotLetters                // "Country code must contain only letters"
    | YearsNotAllowed(years: int)  // "Years must be one of [1, 3, 5, 10], got N"

  /** Checks emptiness, then length, then letters; returns the code upper-cased. */
  function ValidateCountryCode(code: string): (r: Result<string, ValidationError>)
    ensures r == Failure(EmptyCountryCode) <==> |code| == 0
    ensures r == Failure(WrongLength(|code|)) <==> |code| != 0 && |code| != 2
    ensures r == Failure(NotLetters) <==> |code| == 2 && !AllLetters(code)
    ensures r.Success? <==> |code| == 2 && AllLetters(code)
    ensures r.Success? ==>
      |r.value| == 2 && AllLetters(r.value) && IsUpperCased(r.value) && SameIgnoringCase(code, r.value)
  {
    if |code| == 0 then Failure(EmptyCountryCode)
    else if |code| != 2 then Failure(WrongLength(|code|))
    else if !AllLetters(code) then Failure(NotLetters)
    else Success(Upper(code))
  }

  /** A code the validator accepted is accepted again, unchanged. */
  lemma ValidateCountryCodeIdempotent(code: string)
    requires ValidateCountryCode(code).Success?
    ensures ValidateCountryCode(ValidateCountryCode(code).value) == ValidateCountryCode(code)
  {
    UpperIdempotent(code);
  }

  lemma ValidateCountryCodeExamples()
    ensures ValidateCountryCode("gb") == Success("GB")
    ensures ValidateCountryCode("De") == Success("DE")
    ensures ValidateCountryCode("") == Failure(EmptyCountryCode)
    ensures ValidateCountryCode("USA") == Failure(WrongLength(3))
    ensures ValidateCountryCode("U1") == Failure(NotLetters)
  {
    assert AllLetters("gb") && AllLetters("De");
    assert "gb"[1..] == "b" && "De"[1..] == "e" && "b"[1..] == "" && "e"[1..] == "";
    assert Upper("b") == "B" && Upper("e") == "E";
    assert Upper("gb") == "GB" && Upper("De") == "DE";
    assert "U1"[1] == '1';
  }

  /** Membership check against the allowed analysis periods. */
  function ValidateYears(years: int): (r: Result<int, ValidationError>)
    ensures r.Success? <==> years in {1, 3, 5, 10}
    ensures r.Success? ==> r.value == years
    ensures r.Failure? ==> r.error == YearsNotAllowed(years)
  {
    if IsAllowedYears(years) then Success(years) else Failure(YearsNotAllowed(years))
  }
}
