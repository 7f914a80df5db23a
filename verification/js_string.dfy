/** The JavaScript string operations the create handler relies on, stated over
    Dafny strings (sequences of Unicode scalar values). A JavaScript string may
    also hold unpaired surrogates; such strings have no Dafny counterpart. */
module JsString {
  import opened Wrappers

  /** UTF-16 code units JavaScript spends on one character: characters outside
      the Basic Multilingual Plane take a surrogate pair. */
  function CodeUnits(c: char): nat {
    if c as int < 0x1_0000 then 1 else 2
  }

  /** JavaScript's `s.length`, which counts UTF-16 code units, not characters:
      one per character inside the Basic Multilingual Plane, two per character
      outside it. */
  function Length(s: string): (n: nat)
    ensures |s| <= n <= 2 * |s|
    ensures n == 0 <==> s == []
  {
    if s == [] then 0 else CodeUnits(s[0]) + Length(s[1..])
  }

  predicate InBmp(s: string) {
    forall i :: 0 <= i < |s| ==> s[i] as int < 0x1_0000
  }

  /** For text inside the Basic Multilingual Plane, `.length` is the character
      count; one character outside it already makes the two differ. */
  lemma {:induction false} LengthInBmp(s: string)
    ensures InBmp(s) <==> Length(s) == |s|
  {
    if s != [] {
      LengthInBmp(s[1..]);
      assert Length(s) == CodeUnits(s[0]) + Length(s[1..]);
      if InBmp(s) {
        assert InBmp(s[1..]) by {
          forall i | 0 <= i < |s[1..]| ensures s[1..][i] as int < 0x1_0000 {
            assert s[1..][i] == s[i + 1];
          }
        }
      }
      if Length(s) == |s| {
        // an astral first character would already push the count past |s|
        assert CodeUnits(s[0]) == 1 && Length(s[1..]) == |s[1..]|;
        forall i | 0 <= i < |s| ensures s[i] as int < 0x1_0000 {
          if i > 0 {
            assert s[i] == s[1..][i - 1];
          }
        }
      }
    }
  }

  /** JavaScript truthiness of an optional string field (`!field` is its
      negation): absent and the empty string are falsy, every other string is
      truthy, so a truthy field has a positive `.length`. */
  predicate Truthy(field: Option<string>)
    ensures Truthy(field) <==> field.Some? && Length(field.value) > 0
  {
    field.Some? && field.value != ""
  }

  ghost predicate OccursAt(s: string, needle: string, i: nat) {
    i + |needle| <= |s| && s[i..i + |needle|] == needle
  }

  /** JavaScript's `s.includes(needle)`: some position of `s` starts a copy of `needle`. */
  function Includes(s: string, needle: string): (b: bool)
    ensures b <==> exists i: nat :: i <= |s| && OccursAt(s, needle, i)
    decreases |s|
  {
    if needle <= s then
      assert OccursAt(s, needle, 0);
      true
    else if s == [] then
      false
    else
      var rest := Includes(s[1..], needle);
      assert rest ==> exists i: nat :: i <= |s| && OccursAt(s, needle, i) by {
        if rest {
          var k: nat :| k <= |s[1..]| && OccursAt(s[1..], needle, k);
          assert s[k + 1..k + 1 + |needle|] == s[1..][k..k + |needle|];
          assert OccursAt(s, needle, k + 1);
        }
      }
      assert (exists i: nat :: i <= |s| && OccursAt(s, needle, i)) ==> rest by {
        if exists i: nat :: i <= |s| && OccursAt(s, needle, i) {
          var k: nat :| k <= |s| && OccursAt(s, needle, k);
          assert k != 0;
          assert s[1..][k - 1..k - 1 + |needle|] == s[k..k + |needle|];
          assert OccursAt(s[1..], needle, k - 1);
        }
      }
      rest
  }

  /** With a one-character needle, `includes` is plain membership. */
  lemma IncludesChar(s: string, c: char)
    ensures Includes(s, [c]) <==> c in s
  {
    if c in s {
      var k :| 0 <= k < |s| && s[k] == c;
      assert s[k..k + 1] == [c];
      assert OccursAt(s, [c], k);
    }
    if Includes(s, [c]) {
      var k: nat :| k <= |s| && OccursAt(s, [c], k);
      assert s[k] == s[k..k + 1][0];
    }
  }
}
