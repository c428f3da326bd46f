/**
 * Case folding used by the `rm` and `show` lookups.
 *
 * Rust's `str::to_lowercase` applies the full Unicode lowercase mapping. The store's
 * logic only needs it to be a function of its argument; the definition below folds
 * the ASCII capitals and leaves every other character as it is, which is what the
 * Unicode mapping does on ASCII text.
 */
module Text {

  function LowerChar(c: char): char
  {
    if 'A' <= c <= 'Z' then (c as int + 32) as char else c
  }

  /** Stand-in for `to_lowercase`. */
  function Lower(s: string): string
  {
    seq(|s|, i requires 0 <= i < |s| => LowerChar(s[i]))
  }

  /** Two usernames name the same entry for `rm` and `show` when their lowercase forms agree. */
  predicate SameName(a: string, b: string)
  {
    Lower(a) == Lower(b)
  }
}
