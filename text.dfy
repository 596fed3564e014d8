/**
 * The JavaScript string operations the core relies on, over `seq<char>`
 * (one `char` per Unicode scalar value, so `Utf16Length` gives what
 * JavaScript's `length` counts): `split` on a one-character separator,
 * `filter(Boolean)`, `join`, `trim`, `toLowerCase` (ASCII letters only) and
 * `includes`.
 */
module Text {

  /** JavaScript white space: the `\s` class of a regular expression, which is also what `trim` strips. */
  predicate IsSpace(c: char)
  {
    || c == ' ' || c == '\t' || c == '\n' || c == '\r'
    || c == '\U{B}' || c == '\U{C}' || c == '\U{A0}' || c == '\U{1680}'
    || ('\U{2000}' <= c <= '\U{200A}')
    || c == '\U{2028}' || c == '\U{2029}' || c == '\U{202F}' || c == '\U{205F}'
    || c == '\U{3000}' || c == '\U{FEFF}'
  }

  predicate IsSlash(c: char) { c == '/' }

  predicate IsDot(c: char) { c == '.' }

  /** `toLowerCase` on one character, for the ASCII letters. */
  function LowerChar(c: char): (r: char)
    ensures 'A' <= c <= 'Z' ==> 'a' <= r <= 'z'
    ensures !('A' <= c <= 'Z') ==> r == c
  {
    if 'A' <= c <= 'Z' then (c as int - 'A' as int + 'a' as int) as char else c
  }

  function Lower(s: string): (r: string)
    ensures |r| == |s|
    ensures forall i :: 0 <= i < |s| ==> r[i] == LowerChar(s[i])
  {
    if s == [] then [] else [LowerChar(s[0])] + Lower(s[1..])
  }

  /**
   * `s.split(sep)` where the separator is one character, given as the
   * predicate `isSep`: the pieces between separators, always at least one.
   */
  function Split(s: string, isSep: char -> bool): (parts: seq<string>)
    ensures |parts| >= 1
  {
    if s == [] then [""]
    else
      var rest := Split(s[1..], isSep);
      if isSep(s[0]) then [""] + rest else [[s[0]] + rest[0]] + rest[1..]
  }

  /** `parts.join(sep)`. */
  function Join(parts: seq<string>, sep: string): string
  {
    if |parts| == 0 then "" else if |parts| == 1 then parts[0] else parts[0] + sep + Join(parts[1..], sep)
  }

  /** `parts.filter(Boolean)`: drops the empty strings, keeping the order of the rest. */
  function DropEmpty(parts: seq<string>): (r: seq<string>)
    ensures |r| <= |parts|
    ensures forall k :: 0 <= k < |r| ==> r[k] != ""
    ensures forall x :: x in r <==> x in parts && x != ""
  {
    if parts == [] then []
    else if parts[0] == "" then DropEmpty(parts[1..])
    else [parts[0]] + DropEmpty(parts[1..])
  }

  function TrimStart(s: string): string
  {
    if s != [] && IsSpace(s[0]) then TrimStart(s[1..]) else s
  }

  function TrimEnd(s: string): string
  {
    if s != [] && IsSpace(s[|s| - 1]) then TrimEnd(s[..|s| - 1]) else s
  }

  /** `s.trim()`. */
  function Trim(s: string): string
  {
    TrimEnd(TrimStart(s))
  }

  predicate StartsWith(s: string, prefix: string)
  {
    |prefix| <= |s| && s[..|prefix|] == prefix
  }

  /** `s.includes(sub)`. */
  predicate Contains(s: string, sub: string)
    decreases |s|
  {
    StartsWith(s, sub) || (|s| > 0 && Contains(s[1..], sub))
  }

  // ---------------------------------------------------------------- lemmas

  /** The pieces hold no separator, only characters of the string. */
  lemma {:induction false} SplitPieces(s: string, isSep: char -> bool)
    ensures forall k, j :: 0 <= k < |Split(s, isSep)| && 0 <= j < |Split(s, isSep)[k]| ==>
      !isSep(Split(s, isSep)[k][j]) && Split(s, isSep)[k][j] in s
  {
    if s != [] {
      SplitPieces(s[1..], isSep);
      var rest := Split(s[1..], isSep);
      var parts := Split(s, isSep);
      forall k, j | 0 <= k < |parts| && 0 <= j < |parts[k]| ensures !isSep(parts[k][j]) && parts[k][j] in s {
        if isSep(s[0]) {
          assert parts == [""] + rest;
          assert parts[k][j] == rest[k - 1][j];
          assert rest[k - 1][j] in s[1..];
        } else {
          assert parts == [[s[0]] + rest[0]] + rest[1..];
          if k == 0 && j == 0 {
            assert parts[k][j] == s[0];
          } else if k == 0 {
            assert parts[k][j] == rest[0][j - 1];
            assert rest[0][j - 1] in s[1..];
          } else {
            assert parts[k][j] == rest[k][j];
            assert rest[k][j] in s[1..];
          }
        }
      }
    }
  }

  /** The last piece of a string is the last piece of what follows its last separator. */
  lemma LastPieceAfter(a: string, c: char, b: string, isSep: char -> bool)
    requires isSep(c)
    ensures var whole, after := Split(a + [c] + b, isSep), Split(b, isSep);
      whole[|whole| - 1] == after[|after| - 1]
  {
    SplitAround(a, c, b, isSep);
    var x, y := Split(a, isSep), Split(b, isSep);
    assert (x + y)[|x + y| - 1] == y[|y| - 1];
  }

  /** A separator splits a string into the pieces of its two sides. */
  lemma {:induction false} SplitAround(a: string, c: char, b: string, isSep: char -> bool)
    requires isSep(c)
    ensures Split(a + [c] + b, isSep) == Split(a, isSep) + Split(b, isSep)
  {
    if a == [] {
      assert a + [c] + b == [c] + b;
      assert ([c] + b)[1..] == b;
    } else {
      assert (a + [c] + b)[1..] == a[1..] + [c] + b;
      SplitAround(a[1..], c, b, isSep);
    }
  }

  /** A string without separators is a single piece. */
  lemma {:induction false} SplitNoSeparator(s: string, isSep: char -> bool)
    requires forall i :: 0 <= i < |s| ==> !isSep(s[i])
    ensures Split(s, isSep) == [s]
  {
    if s != [] {
      SplitNoSeparator(s[1..], isSep);
      assert [s[0]] + s[1..] == s;
    }
  }

  /** Joining the pieces with the separator gives the string back. */
  lemma {:induction false} JoinSplit(s: string, sep: char, isSep: char -> bool)
    requires forall c :: isSep(c) <==> c == sep
    ensures Join(Split(s, isSep), [sep]) == s
  {
    if s != [] {
      var rest := Split(s[1..], isSep);
      JoinSplit(s[1..], sep, isSep);
      JoinCons(rest, [sep]);
      if isSep(s[0]) {
        JoinCons([""] + rest, [sep]);
        assert ([""] + rest)[1..] == rest;
      } else {
        var parts := [[s[0]] + rest[0]] + rest[1..];
        JoinCons(parts, [sep]);
        assert parts[1..] == rest[1..];
      }
      assert s == [s[0]] + s[1..];
    }
  }

  /** `join` puts the first piece in front of the join of the rest. */
  lemma JoinCons(parts: seq<string>, sep: string)
    requires |parts| >= 1
    ensures Join(parts, sep) == parts[0] + (if |parts| == 1 then "" else sep + Join(parts[1..], sep))
  {
  }

  lemma {:induction false} DropEmptyConcat(a: seq<string>, b: seq<string>)
    ensures DropEmpty(a + b) == DropEmpty(a) + DropEmpty(b)
  {
    if a == [] {
      assert a + b == b;
    } else {
      assert (a + b)[1..] == a[1..] + b;
      DropEmptyConcat(a[1..], b);
    }
  }

  /** The non-empty pieces of a split are empty exactly when every character is a separator. */
  lemma {:induction false} DropEmptySplitNone(s: string, isSep: char -> bool)
    ensures DropEmpty(Split(s, isSep)) == [] <==> forall i :: 0 <= i < |s| ==> isSep(s[i])
  {
    if s != [] {
      DropEmptySplitNone(s[1..], isSep);
      var rest := Split(s[1..], isSep);
      if isSep(s[0]) {
        assert Split(s, isSep) == [""] + rest;
        assert ([""] + rest)[1..] == rest;
        assert (forall i :: 0 <= i < |s| ==> isSep(s[i])) <==> (forall i :: 0 <= i < |s[1..]| ==> isSep(s[1..][i])) by {
          forall i | 0 < i < |s| ensures s[i] == s[1..][i - 1] { }
        }
      } else {
        assert Split(s, isSep)[0] == [s[0]] + rest[0];
        assert !isSep(s[0]);
      }
    }
  }

  /** Trimming yields the empty string exactly when the whole string is white space. */
  lemma {:induction false} TrimEmpty(s: string)
    ensures Trim(s) == "" <==> forall i :: 0 <= i < |s| ==> IsSpace(s[i])
  {
    TrimStartAllSpace(s);
    TrimEndEmpty(TrimStart(s));
  }

  lemma {:induction false} TrimStartAllSpace(s: string)
    ensures TrimStart(s) == "" <==> forall i :: 0 <= i < |s| ==> IsSpace(s[i])
    ensures TrimStart(s) != "" ==> !IsSpace(TrimStart(s)[0])
  {
    if s != [] && IsSpace(s[0]) {
      TrimStartAllSpace(s[1..]);
      assert (forall i :: 0 <= i < |s| ==> IsSpace(s[i])) <==> (forall i :: 0 <= i < |s[1..]| ==> IsSpace(s[1..][i])) by {
        forall i | 0 < i < |s| ensures s[i] == s[1..][i - 1] { }
      }
    }
  }

  lemma {:induction false} TrimEndEmpty(s: string)
    requires s != [] ==> !IsSpace(s[0])
    ensures TrimEnd(s) == "" <==> s == ""
  {
    if s != [] && IsSpace(s[|s| - 1]) {
      assert |s| > 1;
      TrimEndEmpty(s[..|s| - 1]);
    }
  }

  /** A string contains any text that occurs in it at some position. */
  lemma {:induction false} ContainsAt(s: string, sub: string, i: nat)
    requires i + |sub| <= |s| && s[i..i + |sub|] == sub
    ensures Contains(s, sub)
  {
    if i > 0 {
      assert s[1..][i - 1..i - 1 + |sub|] == s[i..i + |sub|];
      ContainsAt(s[1..], sub, i - 1);
    }
  }

  /** Only a non-empty string contains a non-empty text. */
  lemma ContainsNonEmpty(s: string, sub: string)
    requires sub != "" && Contains(s, sub)
    ensures s != ""
  {
  }

  /** Splitting a join on its one-character separator gives the pieces back, when no piece holds the separator. */
  lemma {:induction false} SplitJoin(parts: seq<string>, sep: char, isSep: char -> bool)
    requires forall c :: isSep(c) <==> c == sep
    requires |parts| >= 1
    requires forall k, j :: 0 <= k < |parts| && 0 <= j < |parts[k]| ==> parts[k][j] != sep
    ensures Split(Join(parts, [sep]), isSep) == parts
  {
    SplitNoSeparator(parts[0], isSep);
    if |parts| > 1 {
      SplitJoin(parts[1..], sep, isSep);
      SplitAround(parts[0], sep, Join(parts[1..], [sep]), isSep);
      assert parts[0] + [sep] + Join(parts[1..], [sep]) == Join(parts, [sep]);
      assert parts == [parts[0]] + parts[1..];
    }
  }

  /** A character outside the Basic Multilingual Plane takes two UTF-16 code units, a surrogate pair. */
  function Utf16Units(c: char): nat
  {
    if c as int > 0xFFFF then 2 else 1
  }

  /** JavaScript's `length` of a string: its number of UTF-16 code units. */
  function Utf16Length(s: string): (n: nat)
    ensures |s| <= n <= 2 * |s|
    ensures n == 0 <==> s == ""
  {
    if s == [] then 0 else Utf16Units(s[0]) + Utf16Length(s[1..])
  }

  /** The UTF-16 length is the number of characters exactly when no character lies outside the Basic Multilingual Plane. */
  lemma {:induction false} Utf16LengthBmp(s: string)
    ensures Utf16Length(s) == |s| <==> forall i :: 0 <= i < |s| ==> s[i] as int <= 0xFFFF
  {
    if s != [] {
      Utf16LengthBmp(s[1..]);
      assert forall i :: 1 <= i < |s| ==> s[i] == s[1..][i - 1];
    }
  }

  lemma {:induction false} Utf16LengthAppend(a: string, b: string)
    ensures Utf16Length(a + b) == Utf16Length(a) + Utf16Length(b)
  {
    if a == [] {
      assert a + b == b;
    } else {
      assert (a + b)[1..] == a[1..] + b;
      Utf16LengthAppend(a[1..], b);
    }
  }

  /** A string made only of characters outside the Basic Multilingual Plane is twice as long in UTF-16. */
  lemma {:induction false} Utf16LengthAstral(s: string)
    requires forall i :: 0 <= i < |s| ==> s[i] as int > 0xFFFF
    ensures Utf16Length(s) == 2 * |s|
  {
    if s != [] {
      assert forall i :: 0 <= i < |s[1..]| ==> s[1..][i] == s[i + 1];
      Utf16LengthAstral(s[1..]);
    }
  }
}
