/** Character classification of the C locale, as the guess loop uses it. */
module Letters {

  predicate IsUpper(c: char) { 'A' <= c <= 'Z' }

  predicate IsLower(c: char) { 'a' <= c <= 'z' }

  /** `isalpha` in the C locale: the 52 ASCII letters and nothing else. */
  predicate IsAlpha(c: char) { IsLower(c) || IsUpper(c) }

  /** `tolower` in the C locale: maps 'A'..'Z' to 'a'..'z' and leaves every other character alone. */
  function ToLower(c: char): (r: char)
    ensures IsAlpha(r) <==> IsAlpha(c)
    ensures IsAlpha(r) ==> IsLower(r)
    ensures !IsUpper(c) ==> r == c
    ensures IsUpper(c) ==> r as int == c as int + ('a' as int - 'A' as int)
  {
    if IsUpper(c) then (c as int - 'A' as int + 'a' as int) as char else c
  }
}
