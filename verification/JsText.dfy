/** Character helpers shared by the models of the browser code. */
module JsText {
  /** Upper case, for the letters of ASCII. */
  function UpperChar(c: char): char {
    if 'a' <= c <= 'z' then (c as int - 32) as char else c
  }

  function Upper(s: string): string {
    seq(|s|, i requires 0 <= i < |s| => UpperChar(s[i]))
  }

  /**
   Upper case of one character as far as ASCII is concerned: exactly the characters whose upper
   case is ASCII throughout change, and no other one yields ASCII letters alone.
   */
  function UpperOf(c: char): string {
    var u := c as int;
    if u == 0x131 then "I"
    else if u == 0x17F then "S"
    else if u == 0xDF then "SS"
    else if u == 0xFB00 then "FF"
    else if u == 0xFB01 then "FI"
    else if u == 0xFB02 then "FL"
    else if u == 0xFB03 then "FFI"
    else if u == 0xFB04 then "FFL"
    else if u == 0xFB05 || u == 0xFB06 then "ST"
    else [UpperChar(c)]
  }

  /** Lower case in the same sense: the Kelvin sign becomes k, a dotted capital I keeps its dot as a second character. */
  function LowerOf(c: char): string {
    if c as int == 0x212A then "k" else if c as int == 0x130 then ['i', '\U{0307}'] else [LowerChar(c)]
  }

  function LowerText(s: string): string {
    if s == "" then "" else LowerOf(s[0]) + LowerText(s[1..])
  }

  /** The characters `\s` matches in JavaScript, which are also the ones `trim` removes. */
  predicate IsSpace(c: char) {
    var u := c as int;
    9 <= u <= 13 || u in {0x20, 0xA0, 0x1680, 0x2028, 0x2029, 0x202F, 0x205F, 0x3000, 0xFEFF} || 0x2000 <= u <= 0x200A
  }

  predicate Blank(s: string) { forall c | c in s :: IsSpace(c) }

  function LowerChar(c: char): char {
    if 'A' <= c <= 'Z' then (c as int + 32) as char else c
  }

  function Lower(s: string): string {
    seq(|s|, i requires 0 <= i < |s| => LowerChar(s[i]))
  }

  function TrimStartBy(space: char -> bool, s: string): string {
    if s != "" && space(s[0]) then TrimStartBy(space, s[1..]) else s
  }

  function TrimEndBy(space: char -> bool, s: string): string {
    if s != "" && space(s[|s| - 1]) then TrimEndBy(space, s[..|s| - 1]) else s
  }

  /** Without the white space at both ends. */
  function TrimBy(space: char -> bool, s: string): string { TrimEndBy(space, TrimStartBy(space, s)) }

  function Trim(s: string): string { TrimBy(IsSpace, s) }
}
