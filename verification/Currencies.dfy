// Currency codes as the tables and caches keep them.
module Currencies {

  type Currency = string

  const CODE_LENGTH: nat := 10   // varchar(10)

  function Upper(c: char): char {
    if 'a' <= c <= 'z' then ((c as int) - 32) as char else c
  }

  /** `toUpperCase` of an ASCII code. */
  function ToUpper(code: string): string {
    seq(|code|, i requires 0 <= i < |code| => Upper(code[i]))
  }
}
