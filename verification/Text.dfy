/** Text as sequences of characters: order, prefixes and trimming. */
module Text {
  import opened Wrappers

  /** The order of strings: code point by code point, shorter first. */
  predicate Le(a: string, b: string) {
    if a == [] then true
    else if b == [] then false
    else if a[0] == b[0] then Le(a[1..], b[1..])
    else a[0] < b[0]
  }

  lemma {:induction false} LeTotal(a: string, b: string)
    ensures Le(a, b) || Le(b, a)
  {
    if a != [] && b != [] && a[0] == b[0] {
      LeTotal(a[1..], b[1..]);
    }
  }

  lemma {:induction false} LeAntisymmetric(a: string, b: string)
    requires Le(a, b) && Le(b, a)
    ensures a == b
  {
    if a != [] && b != [] {
      LeAntisymmetric(a[1..], b[1..]);
      assert a == [a[0]] + a[1..] && b == [b[0]] + b[1..];
    }
  }

  lemma {:induction false} LeTransitive(a: string, b: string, c: string)
    requires Le(a, b) && Le(b, c)
    ensures Le(a, c)
  {
    if a != [] && b != [] && c != [] && a[0] == b[0] == c[0] {
      LeTransitive(a[1..], b[1..], c[1..]);
    }
  }

  predicate StartsWith(s: string, prefix: string) {
    prefix <= s
  }

  function StripPrefix(s: string, prefix: string): (r: Option<string>)
    ensures r.Some? <==> StartsWith(s, prefix)
    ensures r.Some? ==> s == prefix + r.value
  {
    if StartsWith(s, prefix) then Some(s[|prefix|..]) else None
  }

  /** The characters with the Unicode White_Space property. */
  predicate IsWhitespace(c: char) {
    || '\U{9}' <= c <= '\U{D}' || c == ' ' || c == '\U{85}' || c == '\U{A0}' || c == '\U{1680}'
    || '\U{2000}' <= c <= '\U{200A}' || c == '\U{2028}' || c == '\U{2029}' || c == '\U{202F}'
    || c == '\U{205F}' || c == '\U{3000}'
  }

  function TrimStart(s: string): string {
    if s != [] && IsWhitespace(s[0]) then TrimStart(s[1..]) else s
  }

  function TrimEnd(s: string): string {
    if s != [] && IsWhitespace(s[|s| - 1]) then TrimEnd(s[..|s| - 1]) else s
  }

  function Trim(s: string): string {
    TrimEnd(TrimStart(s))
  }

  predicate IsBlank(s: string) {
    forall i :: 0 <= i < |s| ==> IsWhitespace(s[i])
  }

  lemma {:induction false} TrimStartIsExact(s: string)
    ensures exists before: string :: IsBlank(before) && s == before + TrimStart(s)
    ensures TrimStart(s) != "" ==> !IsWhitespace(TrimStart(s)[0])
  {
    hide IsWhitespace;
    if s != [] && IsWhitespace(s[0]) {
      TrimStartIsExact(s[1..]);
      var before: string :| IsBlank(before) && s[1..] == before + TrimStart(s[1..]);
      var longer := [s[0]] + before;
      assert forall i :: 0 < i < |longer| ==> longer[i] == before[i - 1];
      assert IsBlank(longer);
      assert s == [s[0]] + s[1..] == longer + TrimStart(s);
    } else {
      assert IsBlank("") && s == "" + TrimStart(s);
    }
  }

  lemma {:induction false} TrimEndIsExact(s: string)
    ensures TrimEnd(s) <= s && IsBlank(s[|TrimEnd(s)|..])
    ensures TrimEnd(s) != "" ==> !IsWhitespace(TrimEnd(s)[|TrimEnd(s)| - 1])
  {
    hide IsWhitespace;
    if s != [] && IsWhitespace(s[|s| - 1]) {
      var init := s[..|s| - 1];
      TrimEndIsExact(init);
      var n := |TrimEnd(init)|;
      assert TrimEnd(s) == TrimEnd(init);
      forall i | 0 <= i < |s[n..]| ensures IsWhitespace(s[n..][i]) {
        assert s[n..][i] == s[n + i];
        if n + i < |init| {
          assert init[n..][i] == s[n + i];
        }
      }
    }
  }

  /** Trimming takes blanks, and only blanks, off both ends until none is left there. */
  lemma TrimIsExact(s: string)
    ensures exists before: string, after: string :: IsBlank(before) && IsBlank(after) && s == before + Trim(s) + after
    ensures Trim(s) != "" ==> !IsWhitespace(Trim(s)[0]) && !IsWhitespace(Trim(s)[|Trim(s)| - 1])
    ensures Trim(s) == "" <==> IsBlank(s)
  {
    hide TrimStart, TrimEnd, IsWhitespace, IsBlank;
    TrimStartIsExact(s);
    var middle := TrimStart(s);
    TrimEndIsExact(middle);
    var before: string :| IsBlank(before) && s == before + middle;
    var after := middle[|TrimEnd(middle)|..];
    assert s == before + Trim(s) + after;
    BlankAround(before, Trim(s), after);
    if Trim(s) != "" {
      assert Trim(s)[0] == middle[0];
    }
  }

  /** Between blanks a text is blank if all of it is. */
  lemma BlankAround(before: string, middle: string, after: string)
    requires IsBlank(before) && IsBlank(after)
    ensures IsBlank(before + middle + after) <==> IsBlank(middle)
    ensures middle == "" ==> IsBlank(middle)
    ensures middle != "" && !IsWhitespace(middle[0]) ==> !IsBlank(middle)
  {
    hide IsWhitespace;
    var s := before + middle + after;
    assert forall i :: 0 <= i < |middle| ==> s[|before| + i] == middle[i];
    assert forall i :: 0 <= i < |s| ==>
      s[i] == if i < |before| then before[i]
              else if i < |before| + |middle| then middle[i - |before|]
              else after[i - |before| - |middle|];
  }
}
