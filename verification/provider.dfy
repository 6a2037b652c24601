/** The "provider" shown on the recovery success page: the email split on '@',
    last segment. Split follows String.Split(char): it never yields an empty
    sequence, so LastOrDefault always picks a real segment. */
module Provider {

  /** Joins non-empty `parts` with `sep` between neighbours; the inverse of Split. */
  function Join(parts: seq<string>, sep: char): string
    requires |parts| >= 1
  {
    if |parts| == 1 then parts[0] else parts[0] + [sep] + Join(parts[1..], sep)
  }

  /** String.Split(sep): the maximal runs of `s` between occurrences of `sep`. */
  function Split(s: string, sep: char): (parts: seq<string>)
    ensures |parts| >= 1
    ensures forall i :: 0 <= i < |parts| ==> sep !in parts[i]
    ensures Join(parts, sep) == s
  {
    if |s| == 0 then [""]
    else
      var rest := Split(s[1..], sep);
      if s[0] == sep then
        assert ([""] + rest)[1..] == rest;
        [""] + rest
      else
        var parts := [[s[0]] + rest[0]] + rest[1..];
        assert parts[1..] == rest[1..];
        assert |rest| > 1 ==> Join(rest, sep) == rest[0] + [sep] + Join(rest[1..], sep);
        assert s == [s[0]] + s[1..];
        parts
  }

  /** Splitting a separator-free prefix glued to `y` puts the prefix in front of y's first part. */
  lemma {:induction false} SplitPrefix(x: string, y: string, sep: char)
    requires sep !in x
    ensures Split(x + y, sep) == [x + Split(y, sep)[0]] + Split(y, sep)[1..]
  {
    if |x| > 0 {
      SplitPrefix(x[1..], y, sep);
      assert (x + y)[1..] == x[1..] + y;
      assert (x + y)[0] == x[0];
      assert [x[0]] + (x[1..] + Split(y, sep)[0]) == x + Split(y, sep)[0];
    } else {
      assert x + y == y;
      var parts := Split(y, sep);
      assert x + parts[0] == parts[0];
      assert parts == [parts[0]] + parts[1..];
    }
  }

  /** Split undoes Join when no part contains the separator. */
  lemma {:induction false} SplitJoin(parts: seq<string>, sep: char)
    requires |parts| >= 1
    requires forall i :: 0 <= i < |parts| ==> sep !in parts[i]
    ensures Split(Join(parts, sep), sep) == parts
  {
    var head := parts[0];
    if |parts| == 1 {
      SplitPrefix(head, "", sep);
      assert head + "" == head;
      assert Split("", sep) == [""];
    } else {
      var rest := parts[1..];
      var tail := Join(rest, sep);
      SplitJoin(rest, sep);
      var y := [sep] + tail;
      assert y[1..] == tail;
      assert Split(y, sep) == [""] + rest;
      SplitPrefix(head, y, sep);
      assert Join(parts, sep) == head + y;
      assert head + "" == head;
      assert parts == [head] + rest;
    }
  }

  /** The last segment of Split is the longest separator-free suffix of `s`. */
  lemma {:induction false} SplitLast(s: string, sep: char)
    ensures var parts := Split(s, sep);
            var p := parts[|parts| - 1];
            && |p| <= |s| && p == s[|s| - |p|..] && sep !in p
            && (|p| < |s| ==> s[|s| - |p| - 1] == sep)
  {
    if |s| > 0 {
      SplitLast(s[1..], sep);
      var rest := Split(s[1..], sep);
      if s[0] != sep && |rest| == 1 {
        assert Join(rest, sep) == rest[0];
        assert [s[0]] + rest[0] == s;
      }
    }
  }

  /** The provider: the text after the last '@', or the whole email without one. */
  function ProviderOf(email: string): (p: string)
    ensures '@' !in p
    ensures |p| <= |email| && p == email[|email| - |p|..]
    ensures |p| < |email| ==> email[|email| - |p| - 1] == '@'
    ensures '@' !in email ==> p == email
  {
    var parts := Split(email, '@');
    SplitLast(email, '@');
    parts[|parts| - 1]
  }

  /** The three properties above pin the provider down: no other suffix has them. */
  lemma ProviderUnique(email: string, q: string)
    requires '@' !in q
    requires |q| <= |email| && q == email[|email| - |q|..]
    requires |q| < |email| ==> email[|email| - |q| - 1] == '@'
    ensures q == ProviderOf(email)
  {
  }
}
