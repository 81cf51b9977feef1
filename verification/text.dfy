/** String handling the coordinators do themselves: JavaScript's
    `String.prototype.split` on a one-character separator, and the warning
    about characters that never occur in Nano addresses. */
module Text {

  /** Characters the coordinators warn about. */
  const UNAVAILABLE_CHARS: seq<char> := ['0', '2', 'l', 'v']

  /** `s.split(sep)`: the pieces between separators, in order; an empty
      string gives one empty piece and adjacent separators an empty piece
      between them. */
  function Split(s: string, sep: char): (r: seq<string>)
    ensures |r| >= 1
  {
    if s == [] then [[]]
    else
      var rest := Split(s[1..], sep);
      if s[0] == sep then [[]] + rest else [[s[0]] + rest[0]] + rest[1..]
  }

  /** No piece contains the separator. */
  lemma {:induction false} SplitPiecesLackSeparator(s: string, sep: char)
    ensures forall p :: p in Split(s, sep) ==> sep !in p
  {
    if s != [] {
      SplitPiecesLackSeparator(s[1..], sep);
      var rest := Split(s[1..], sep);
      if s[0] != sep {
        assert rest[0] in rest;
      }
    }
  }

  /** `parts.join(sep)`, the inverse of Split. */
  function Join(parts: seq<string>, sep: char): string
    requires |parts| >= 1
  {
    if |parts| == 1 then parts[0] else parts[0] + [sep] + Join(parts[1..], sep)
  }

  /** Splitting loses nothing: joining the pieces back gives the text. */
  lemma {:induction false} JoinSplit(s: string, sep: char)
    ensures Join(Split(s, sep), sep) == s
  {
    if s != [] {
      var rest := Split(s[1..], sep);
      JoinSplit(s[1..], sep);
      if s[0] == sep {
        assert ([[]] + rest)[1..] == rest;
      } else {
        var r := [[s[0]] + rest[0]] + rest[1..];
        if |rest| > 1 {
          assert r[1..] == rest[1..];
          assert Join(rest, sep) == rest[0] + [sep] + Join(rest[1..], sep);
        }
      }
    }
  }

  lemma {:induction false} SplitWithoutSeparator(a: string, sep: char)
    requires sep !in a
    ensures Split(a, sep) == [a]
  {
    if a != [] {
      SplitWithoutSeparator(a[1..], sep);
      assert [a[0]] + a[1..] == a;
    }
  }

  lemma {:induction false} SplitAtSeparator(a: string, b: string, sep: char)
    requires sep !in a
    ensures Split(a + [sep] + b, sep) == [a] + Split(b, sep)
  {
    var s := a + [sep] + b;
    if a == [] {
      assert s[1..] == b;
    } else {
      assert s[1..] == a[1..] + [sep] + b;
      SplitAtSeparator(a[1..], b, sep);
      assert [a[0]] + a[1..] == a;
    }
  }

  /** Splitting is also a left inverse of joining: pieces that hold no
      separator come back exactly, so Split determines its result. */
  lemma {:induction false} SplitJoin(parts: seq<string>, sep: char)
    requires |parts| >= 1
    requires forall p :: p in parts ==> sep !in p
    ensures Split(Join(parts, sep), sep) == parts
  {
    if |parts| == 1 {
      SplitWithoutSeparator(parts[0], sep);
    } else {
      SplitJoin(parts[1..], sep);
      SplitAtSeparator(parts[0], Join(parts[1..], sep), sep);
      assert [parts[0]] + parts[1..] == parts;
    }
  }

  /** `chars.some(char => text.includes(char))`. */
  function AnyIncluded(chars: seq<char>, text: string): bool
  {
    chars != [] && (chars[0] in text || AnyIncluded(chars[1..], text))
  }

  lemma {:induction false} AnyIncludedIff(chars: seq<char>, text: string)
    ensures AnyIncluded(chars, text) <==> exists i :: 0 <= i < |text| && text[i] in chars
  {
    if chars != [] {
      AnyIncludedIff(chars[1..], text);
      assert forall c :: c in chars <==> c == chars[0] || c in chars[1..];
    }
  }

  /** The `unavailableCharsWarning` flag `handleTextChange` computes. */
  function UnavailableCharsWarning(text: string): bool
  {
    AnyIncluded(UNAVAILABLE_CHARS, text)
  }

  /** The warning is raised exactly when one of '0', '2', 'l', 'v' occurs
      in the text. */
  lemma UnavailableCharsWarningIff(text: string)
    ensures UnavailableCharsWarning(text) <==> '0' in text || '2' in text || 'l' in text || 'v' in text
  {
    AnyIncludedIff(UNAVAILABLE_CHARS, text);
  }
}
