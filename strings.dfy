/** String and list helpers of `util/extension/StringExtension.kt`. */
module StringExt {
  import opened Wrappers

  type String = seq<char>

  const Quote: char := '"'

  /** `what` in front of `s`. */
  function PrefixWith(s: String, what: String): String { what + s }

  /** `s` followed by `what`. */
  function SuffixWith(s: String, what: String): String { s + what }

  function WrappedIn(s: String, begin: String, end: String): (r: String)
    ensures |r| == |begin| + |s| + |end|
    ensures r[..|begin|] == begin && r[|begin|..|begin| + |s|] == s && r[|begin| + |s|..] == end
  {
    SuffixWith(PrefixWith(s, begin), end)
  }

  /** `s` with one `"` on each side. */
  function WrappedInQuotes(s: String): (r: String)
    ensures |r| == |s| + 2
    ensures r[0] == Quote && r[|r| - 1] == Quote && r[1..|r| - 1] == s
  {
    WrappedIn(s, [Quote], [Quote])
  }

  /** The pair's two strings with `what` between them. */
  function InfixWith(pair: (String, String), what: String): (r: String)
    ensures |r| == |pair.0| + |what| + |pair.1|
    ensures r[..|pair.0|] == pair.0 && r[|pair.0|..|pair.0| + |what|] == what
    ensures r[|pair.0| + |what|..] == pair.1
  {
    pair.0 + what + pair.1
  }

  /** Every element prefixed with two spaces. */
  function Indent(lines: seq<String>): (r: seq<String>)
    ensures |r| == |lines|
    ensures forall i :: 0 <= i < |r| ==> r[i] == "  " + lines[i]
  {
    if lines == [] then [] else [PrefixWith(lines[0], "  ")] + Indent(lines[1..])
  }

  /** Whether `s` is at most two characters long and holds only quotes. */
  predicate IsIdentityWithQuotes(s: String)
  {
    |s| <= 2 && forall i :: 0 <= i < |s| ==> s[i] == Quote
  }

  function BoolToInt(b: bool): nat { if b then 1 else 0 }

  /**
   * Drops one leading and one trailing quote when present; a string of
   * at most two quotes becomes empty.
   */
  function TrimQuotesAround(s: String): (r: String)
    ensures IsIdentityWithQuotes(s) ==> r == ""
    ensures !IsIdentityWithQuotes(s) && s[0] == Quote && s[|s| - 1] == Quote ==> r == s[1..|s| - 1]
    ensures !IsIdentityWithQuotes(s) && s[0] == Quote && s[|s| - 1] != Quote ==> r == s[1..]
    ensures !IsIdentityWithQuotes(s) && s[0] != Quote && s[|s| - 1] == Quote ==> r == s[..|s| - 1]
    ensures !IsIdentityWithQuotes(s) && s[0] != Quote && s[|s| - 1] != Quote ==> r == s
  {
    if IsIdentityWithQuotes(s) then ""
    else
      var begin := BoolToInt(|s| > 0 && s[0] == Quote);
      var end := |s| - BoolToInt(|s| > 0 && s[|s| - 1] == Quote) - 1;
      s[begin..end + 1]
  }

  /** Wrapping in quotes and trimming them again gives back the string. */
  lemma TrimWrappedInQuotes(s: String)
    ensures TrimQuotesAround(WrappedInQuotes(s)) == s
  {
    var w := WrappedInQuotes(s);
    if IsIdentityWithQuotes(w) {
      assert |s| == 0;
    } else {
      assert w[0] == Quote && w[|w| - 1] == Quote;
      assert w[1..|w| - 1] == s;
    }
  }

  /** Trimming is idempotent only up to one quote pair: `""x""` keeps its inner quotes. */
  lemma TrimQuotesAroundOnce()
    ensures TrimQuotesAround("\"\"x\"\"") == "\"x\""
  {
    var s := "\"\"x\"\"";
    assert !IsIdentityWithQuotes(s) by { assert |s| == 5; }
  }

  /**
   * The list version of `wrappedIn`: `begin` before the first element and
   * `end` after the last. `first()` throws on an empty list and
   * `take(size - 2)` throws on a one-element list, so only lists of two or
   * more elements succeed, and then only the ends change.
   */
  function WrappedInList(lines: seq<String>, begin: String, end: String): (r: Result<seq<String>>)
    ensures r.Ok? <==> |lines| >= 2
    ensures |lines| == 0 ==> r == Err(NoSuchElementException)
    ensures |lines| == 1 ==> r == Err(IllegalArgumentException)
    ensures r.Ok? ==> |r.value| == |lines|
    ensures r.Ok? ==> r.value[0] == begin + lines[0] && r.value[|lines| - 1] == lines[|lines| - 1] + end
    ensures r.Ok? ==> forall i :: 0 < i < |lines| - 1 ==> r.value[i] == lines[i]
  {
    if |lines| == 0 then Err(NoSuchElementException)
    else
      var newFirst := PrefixWith(lines[0], begin);
      var newLast := SuffixWith(lines[|lines| - 1], end);
      var withoutExtremes :- Take(lines[1..], |lines| - 2);
      Ok([newFirst] + withoutExtremes + [newLast])
  }

  /** Kotlin `take(n)`: a negative count throws, a count past the end takes everything. */
  function Take<T>(s: seq<T>, n: int): (r: Result<seq<T>>)
    ensures n < 0 <==> r == Err(IllegalArgumentException)
    ensures n >= 0 ==> r.Ok? && |r.value| == (if n <= |s| then n else |s|) && r.value <= s
  {
    if n < 0 then Err(IllegalArgumentException) else if n <= |s| then Ok(s[..n]) else Ok(s)
  }
}
