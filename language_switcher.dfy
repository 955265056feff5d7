/**
 * The locale switch of the language switcher
 * (components/LanguageSwitcher.tsx): split the current path on '/', put the
 * new locale in segment 1, and join the segments again.
 */
module LanguageSwitcher {
  import I18n

  /**
   * JavaScript's `s.split(sep)` for a one-character separator: the pieces
   * between separators, in order; there is always at least one piece, and
   * one more than there are separators.
   */
  function Split(s: string, sep: char): (parts: seq<string>)
    ensures |parts| == Occurrences(s, sep) + 1
    ensures forall i :: 0 <= i < |parts| ==> sep !in parts[i]
  {
    if s == [] then [""]
    else
      var rest := Split(s[1..], sep);
      if s[0] == sep then [""] + rest
      else [[s[0]] + rest[0]] + rest[1..]
  }

  /** The number of times c occurs in s. */
  function Occurrences(s: string, c: char): nat
  {
    if s == [] then 0 else (if s[0] == c then 1 else 0) + Occurrences(s[1..], c)
  }

  /** JavaScript's `parts.join(sep)`: the parts with one separator between neighbours. */
  function Join(parts: seq<string>, sep: char): string
  {
    if parts == [] then ""
    else if |parts| == 1 then parts[0]
    else parts[0] + [sep] + Join(parts[1..], sep)
  }

  /** Joining the pieces of a split gives back the original string. */
  lemma {:induction false} JoinSplit(s: string, sep: char)
    ensures Join(Split(s, sep), sep) == s
  {
    if s != [] {
      var rest := Split(s[1..], sep);
      JoinSplit(s[1..], sep);
      if s[0] == sep {
        assert Split(s, sep) == [""] + rest;
        assert Join([""] + rest, sep) == "" + [sep] + Join(rest, sep);
      } else {
        JoinConsFirst(s[0], rest, sep);
      }
    }
  }

  /** Putting a character in front of the first part puts it in front of the joined string. */
  lemma JoinConsFirst(c: char, parts: seq<string>, sep: char)
    requires |parts| >= 1
    ensures Join([[c] + parts[0]] + parts[1..], sep) == [c] + Join(parts, sep)
  {
    var parts' := [[c] + parts[0]] + parts[1..];
    if |parts| > 1 {
      assert parts'[1..] == parts[1..];
    }
  }

  /** Splitting a join of separator-free parts gives back the parts. */
  lemma {:induction false} SplitJoin(parts: seq<string>, sep: char)
    requires |parts| >= 1
    requires forall i :: 0 <= i < |parts| ==> sep !in parts[i]
    ensures Split(Join(parts, sep), sep) == parts
  {
    if |parts| == 1 {
      SplitFree(parts[0], sep);
    } else {
      SplitJoin(parts[1..], sep);
      var tail := Join(parts[1..], sep);
      SplitSeparatorPrefix(parts[0], tail, sep);
      assert [parts[0]] + parts[1..] == parts;
    }
  }

  /** A string without the separator splits into itself alone. */
  lemma {:induction false} SplitFree(s: string, sep: char)
    requires sep !in s
    ensures Split(s, sep) == [s]
  {
    if s != [] {
      assert s[0] != sep && sep !in s[1..];
      SplitFree(s[1..], sep);
      assert [s[0]] + s[1..] == s;
    }
  }

  /** A separator-free head, a separator and a tail split into the head followed by the tail's parts. */
  lemma {:induction false} SplitSeparatorPrefix(head: string, tail: string, sep: char)
    requires sep !in head
    ensures Split(head + [sep] + tail, sep) == [head] + Split(tail, sep)
  {
    if head == [] {
      assert head + [sep] + tail == [sep] + tail;
      assert ([sep] + tail)[1..] == tail;
    } else {
      var s := head + [sep] + tail;
      assert s[1..] == head[1..] + [sep] + tail;
      SplitSeparatorPrefix(head[1..], tail, sep);
      assert [head[0]] + head[1..] == head;
    }
  }

  /**
   * The segments with the locale written at index 1. A path without '/' has
   * one segment only; writing index 1 of a one-element array appends.
   */
  function Relocalized(segments: seq<string>, locale: string): (result: seq<string>)
    requires |segments| >= 1
    ensures |result| == if |segments| >= 2 then |segments| else 2
    ensures result[1] == locale
    ensures forall i :: 0 <= i < |result| && i != 1 ==> result[i] == segments[i]
  {
    if |segments| >= 2 then segments[1 := locale] else segments + [locale]
  }

  /** The path the switcher navigates to: the current path with its locale segment replaced. */
  function SwitchedPath(path: string, locale: string): string
  {
    Join(Relocalized(Split(path, '/'), locale), '/')
  }

  /**
   * The rewrite as the switcher performs it: split into an array, assign
   * segment 1 in place, join. The segments of the result are those of the
   * path, except that segment 1 is the new locale.
   */
  method ChangeLocale(path: string, newLocale: string) returns (newPath: string)
    requires '/' !in newLocale
    ensures newPath == SwitchedPath(path, newLocale)
    ensures var before, after := Split(path, '/'), Split(newPath, '/');
      && |after| == (if |before| >= 2 then |before| else 2)
      && after[1] == newLocale
      && forall i :: 0 <= i < |after| && i != 1 ==> after[i] == before[i]
  {
    var parts := Split(path, '/');
    var n := if |parts| >= 2 then |parts| else 2;
    var segments := new string[n](i requires 0 <= i < n => if i < |parts| then parts[i] else "");
    segments[1] := newLocale;
    assert segments[..] == Relocalized(parts, newLocale);
    newPath := Join(segments[..], '/');
    SwitchedSegments(path, newLocale);
  }

  /** The segments of a switched path: the path's own, with the locale at index 1. */
  lemma SwitchedSegments(path: string, locale: string)
    requires '/' !in locale
    ensures Split(SwitchedPath(path, locale), '/') == Relocalized(Split(path, '/'), locale)
  {
    var segments := Relocalized(Split(path, '/'), locale);
    SplitJoin(segments, '/');
  }

  /** Switching to one locale and then to another is the same as switching straight to the second. */
  lemma SwitchTwice(path: string, first: string, second: string)
    requires '/' !in first && '/' !in second
    ensures SwitchedPath(SwitchedPath(path, first), second) == SwitchedPath(path, second)
  {
    var segments := Split(path, '/');
    SwitchedSegments(path, first);
    var once := Relocalized(segments, first);
    assert Relocalized(once, second) == Relocalized(segments, second);
  }

  /** Switching to the locale the path already has gives back the same path. */
  lemma SwitchToCurrent(path: string, locale: string)
    requires |Split(path, '/')| >= 2 && Split(path, '/')[1] == locale
    ensures SwitchedPath(path, locale) == path
  {
    var segments := Split(path, '/');
    assert Relocalized(segments, locale) == segments;
    JoinSplit(path, '/');
  }

  /**
   * Every supported locale is a single path segment, so switching to it makes
   * it segment 1 of the new path and keeps every other segment.
   */
  lemma SwitchToSupportedLocale(path: string, locale: string)
    requires locale in I18n.Locales
    ensures Split(SwitchedPath(path, locale), '/') == Relocalized(Split(path, '/'), locale)
    ensures Split(SwitchedPath(path, locale), '/')[1] == locale
  {
    I18n.LocalesWellFormed();
    SwitchedSegments(path, locale);
  }
}
