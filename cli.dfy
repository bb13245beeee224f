/**
 * The keep-mask parser of the command-line front end (cli.py, lines 37-45):
 * the player types the positions of the dice to keep, such as "135", and gets
 * back five flags, one per die.
 */
module Cli {
  import opened Wrappers

  /** Why `parse` raises `ValueError`. */
  datatype ParseError =
    | NotAnInteger(c: char)   // `int(char)` rejects the character
    | OutOfRange(value: int)  // a digit other than 1..5

  /** The decimal value of an ASCII digit, as `int` gives it for a one-character string. */
  function DigitValue(c: char): (r: Option<int>)
    ensures r.Some? <==> '0' <= c <= '9'
    ensures r.Some? ==> 0 <= r.value <= 9 && c == ('0' as int + r.value) as char
  {
    if '0' <= c <= '9' then Some(c as int - '0' as int) else None
  }

  /** A character the parser accepts: a die position from '1' to '5'. */
  predicate IsPosition(c: char)
  {
    '1' <= c <= '5'
  }

  /** The character naming die position `k + 1`. */
  function PositionChar(k: int): char
    requires 0 <= k < 5
  {
    ('1' as int + k) as char
  }

  /**
   * The flags the parser builds, character by character: every accepted
   * character sets the flag of its position.
   */
  function KeepMask(input: string): (m: seq<bool>)
    ensures |m| == 5
    ensures forall k :: 0 <= k < 5 ==> (m[k] <==> PositionChar(k) in input)
  {
    if input == [] then [false, false, false, false, false]
    else
      var prefix := input[..|input| - 1];
      var c := input[|input| - 1];
      assert input == prefix + [c];
      var m := KeepMask(prefix);
      if IsPosition(c) then m[c as int - '1' as int := true] else m
  }

  /**
   * `parse`: five keep flags, flag k set exactly when the character for
   * position k + 1 occurs in the input; `ValueError` for the first character
   * that is not a position.
   */
  method Parse(input: string) returns (r: Result<seq<bool>, ParseError>)
    ensures r.Ok? <==> forall i :: 0 <= i < |input| ==> IsPosition(input[i])
    ensures r.Ok? ==> |r.value| == 5 && r.value == KeepMask(input)
    ensures r.Err? ==>
      (exists i :: 0 <= i < |input| && !IsPosition(input[i]) &&
        (forall j :: 0 <= j < i ==> IsPosition(input[j])) &&
        r.error == (if '0' <= input[i] <= '9' then OutOfRange(input[i] as int - '0' as int) else NotAnInteger(input[i])))
  {
    var options := new bool[5] [false, false, false, false, false];
    var i := 0;
    while i < |input|
      invariant 0 <= i <= |input|
      invariant forall j :: 0 <= j < i ==> IsPosition(input[j])
      invariant options[..] == KeepMask(input[..i])
    {
      var c := input[i];
      assert input[..i + 1] == input[..i] + [c];
      var digit := DigitValue(c);
      if digit.None? {
        return Err(NotAnInteger(c));
      }
      var numValue := digit.value;
      if numValue >= 1 && numValue <= 5 {
        options[numValue - 1] := true;
      } else {
        return Err(OutOfRange(numValue));
      }
      i := i + 1;
    }
    assert input[..i] == input;
    return Ok(options[..]);
  }

  /** The empty input keeps no die. */
  lemma EmptyInputKeepsNothing()
    ensures KeepMask("") == [false, false, false, false, false]
  {
  }

  /** The flags depend only on which characters occur, not on their order or repetition. */
  lemma KeepMaskIgnoresOrder(a: string, b: string)
    requires forall c :: c in a <==> c in b
    ensures KeepMask(a) == KeepMask(b)
  {
    var ma, mb := KeepMask(a), KeepMask(b);
    assert forall k :: 0 <= k < 5 ==> ma[k] == mb[k];
  }

  /** '0', the digits 6 to 9 and any non-digit character are rejected. */
  lemma RejectedCharacters(c: char)
    ensures !IsPosition(c) <==> c == '0' || '6' <= c <= '9' || DigitValue(c).None?
  {
  }
}
