/** The name sanitizers of orchestra/fly/fly.go: application names ('-', 63 characters)
    and volume names ('_', 30 characters) differ only in separator and limit. Lower-casing
    is a character map given by the caller that leaves the allowed characters alone. */
module Sanitize {

  const APP_SEPARATOR := '-'
  const APP_LIMIT: nat := 63
  const VOLUME_SEPARATOR := '_'
  const VOLUME_LIMIT: nat := 30

  predicate Letter(c: char) { 'a' <= c <= 'z' || '0' <= c <= '9' }

  predicate Allowed(c: char, sep: char) { Letter(c) || c == sep }

  ghost predicate Lowers(lower: char -> char) { forall c :: Letter(c) ==> lower(c) == c }

  function Mapped(c: char, sep: char, lower: char -> char): char {
    if Allowed(lower(c), sep) then lower(c) else sep
  }

  function MapAll(s: string, sep: char, lower: char -> char): string {
    seq(|s|, i requires 0 <= i < |s| => Mapped(s[i], sep, lower))
  }

  function TrimLeft(s: string, sep: char): string {
    if s != "" && s[0] == sep then TrimLeft(s[1..], sep) else s
  }

  function TrimRight(s: string, sep: char): string {
    if s != "" && s[|s| - 1] == sep then TrimRight(s[..|s| - 1], sep) else s
  }

  predicate HasPair(s: string, sep: char) { exists i :: 0 <= i < |s| - 1 && s[i] == s[i + 1] == sep }

  /** strings.ReplaceAll of a doubled separator by a single one: left to right, without
      overlaps. */
  function ReplacePairs(s: string, sep: char): string
    decreases |s|
  {
    if s == "" then ""
    else if |s| > 1 && s[0] == sep && s[1] == sep then [sep] + ReplacePairs(s[2..], sep)
    else [s[0]] + ReplacePairs(s[1..], sep)
  }

  /** Every run of separators becomes one, in one pass. */
  function Collapse(s: string, sep: char): string {
    if s == "" then ""
    else if |s| > 1 && s[0] == sep && s[1] == sep then Collapse(s[1..], sep)
    else [s[0]] + Collapse(s[1..], sep)
  }

  function Cut(s: string, sep: char, limit: nat): string {
    if |s| > limit then TrimRight(s[..limit], sep) else s
  }

  function Sanitized(name: string, sep: char, limit: nat, lower: char -> char): string {
    Cut(Collapse(TrimRight(TrimLeft(MapAll(name, sep, lower), sep), sep), sep), sep, limit)
  }

  // ----------------------------------------------- the replace-until-none loop

  lemma {:induction false} ReplaceShrinks(s: string, sep: char)
    ensures |ReplacePairs(s, sep)| <= |s|
    ensures HasPair(s, sep) ==> |ReplacePairs(s, sep)| < |s|
    decreases |s|
  {
    if s != "" {
      if |s| > 1 && s[0] == sep && s[1] == sep {
        ReplaceShrinks(s[2..], sep);
      } else {
        ReplaceShrinks(s[1..], sep);
      }
    }
  }

  /** One round of replacing does not change what the runs collapse to. */
  lemma {:induction false} ReplaceKeepsCollapse(s: string, sep: char)
    ensures Collapse(ReplacePairs(s, sep), sep) == Collapse(s, sep)
    decreases |s|
  {
    if s != "" {
      var r := ReplacePairs(s, sep);
      if |s| > 1 && s[0] == sep && s[1] == sep {
        var rest := s[2..];
        ReplaceKeepsCollapse(rest, sep);
        assert r == [sep] + ReplacePairs(rest, sep) && r[1..] == ReplacePairs(rest, sep);
        assert s[1..][1..] == rest;
      } else {
        ReplaceKeepsCollapse(s[1..], sep);
        assert r[1..] == ReplacePairs(s[1..], sep);
      }
    }
  }

  lemma {:induction false} CollapsedAlready(s: string, sep: char)
    requires !HasPair(s, sep)
    ensures Collapse(s, sep) == s
    decreases |s|
  {
    if s != "" {
      CollapsedAlready(s[1..], sep);
    }
  }

  method SanitizeName(name: string, sep: char, limit: nat, lower: char -> char) returns (r: string)
    ensures r == Sanitized(name, sep, limit, lower)
  {
    r := "";
    for i := 0 to |name|
      invariant r == MapAll(name[..i], sep, lower)
    {
      assert name[..i + 1] == name[..i] + [name[i]];
      var c := lower(name[i]);
      r := r + if Letter(c) || c == sep then [c] else [sep];
    }
    assert name[..|name|] == name;
    r := TrimRight(TrimLeft(r, sep), sep);
    ghost var trimmed := r;
    while HasPair(r, sep)
      invariant Collapse(r, sep) == Collapse(trimmed, sep)
      decreases |r|
    {
      ReplaceShrinks(r, sep);
      ReplaceKeepsCollapse(r, sep);
      r := ReplacePairs(r, sep);
    }
    CollapsedAlready(r, sep);
    if |r| > limit {
      r := r[..limit];
      r := TrimRight(r, sep);
    }
  }

  // ------------------------------------------------------- what a name becomes

  predicate AllAllowed(s: string, sep: char) { forall i :: 0 <= i < |s| ==> Allowed(s[i], sep) }

  /** What Fly accepts: allowed characters within the limit, separators single and
      inside. */
  predicate ValidName(s: string, sep: char, limit: nat) {
    && |s| <= limit && AllAllowed(s, sep) && !HasPair(s, sep)
    && (s != "" ==> s[0] != sep && s[|s| - 1] != sep)
  }

  /** The text without separators. */
  function Letters(s: string, sep: char): string {
    if s == "" then "" else (if s[0] == sep then "" else [s[0]]) + Letters(s[1..], sep)
  }

  lemma {:induction false} TrimLeftIs(s: string, sep: char)
    ensures var t := TrimLeft(s, sep);
            && (AllAllowed(s, sep) ==> AllAllowed(t, sep)) && (t != "" ==> t[0] != sep)
            && Letters(t, sep) == Letters(s, sep)
            && (s == "" || s[0] != sep ==> t == s)
    decreases |s|
  {
    if s != "" && s[0] == sep {
      TrimLeftIs(s[1..], sep);
    }
  }

  lemma {:induction false} LettersSnoc(s: string, c: char, sep: char)
    ensures Letters(s + [c], sep) == Letters(s, sep) + if c == sep then "" else [c]
    decreases |s|
  {
    if s == "" {
      assert s + [c] == [c] && [c][1..] == "";
    } else {
      assert (s + [c])[0] == s[0] && (s + [c])[1..] == s[1..] + [c];
      LettersSnoc(s[1..], c, sep);
    }
  }

  lemma {:induction false} TrimRightIs(s: string, sep: char)
    ensures var t := TrimRight(s, sep);
            && t <= s && (t != "" ==> t[|t| - 1] != sep)
            && Letters(t, sep) == Letters(s, sep)
            && (s == "" || s[|s| - 1] != sep ==> t == s)
            && (s != "" && s[0] != sep ==> t != "")
    decreases |s|
  {
    if s != "" && s[|s| - 1] == sep {
      var before := s[..|s| - 1];
      TrimRightIs(before, sep);
      LettersSnoc(before, sep, sep);
      assert s == before + [sep];
    }
  }

  lemma {:induction false} CollapseIs(s: string, sep: char)
    ensures var t := Collapse(s, sep);
            && (AllAllowed(s, sep) ==> AllAllowed(t, sep)) && !HasPair(t, sep)
            && (s != "" <==> t != "")
            && (s != "" ==> t[0] == s[0] && t[|t| - 1] == s[|s| - 1])
            && Letters(t, sep) == Letters(s, sep)
    decreases |s|
  {
    if s != "" {
      var rest := s[1..];
      var t := Collapse(s, sep);
      CollapseIs(rest, sep);
      if !(|s| > 1 && s[0] == sep && s[1] == sep) {
        assert t[1..] == Collapse(rest, sep);
      }
    }
  }

  lemma {:induction false} LettersPrefix(s: string, t: string, sep: char)
    requires t <= s
    ensures Letters(t, sep) <= Letters(s, sep)
    decreases |t|
  {
    if t != "" {
      assert s[0] == t[0] && t[1..] <= s[1..];
      LettersPrefix(s[1..], t[1..], sep);
    }
  }

  /** Every input becomes a valid name; its letters are a prefix of the letters of the
      input, all of them when nothing is cut off. */
  lemma SanitizedIsValid(name: string, sep: char, limit: nat, lower: char -> char)
    ensures var r := Sanitized(name, sep, limit, lower);
            var letters := Letters(MapAll(name, sep, lower), sep);
            && ValidName(r, sep, limit)
            && Letters(r, sep) <= letters
            && (|Collapse(TrimRight(TrimLeft(MapAll(name, sep, lower), sep), sep), sep)| <= limit ==> Letters(r, sep) == letters)
  {
    var mapped := MapAll(name, sep, lower);
    var left := TrimLeft(mapped, sep);
    var trimmed := TrimRight(left, sep);
    var collapsed := Collapse(trimmed, sep);
    TrimLeftIs(mapped, sep);
    TrimRightIs(left, sep);
    CollapseIs(trimmed, sep);
    assert trimmed != "" ==> trimmed[0] == left[0];
    if |collapsed| > limit {
      CutIsValid(collapsed, sep, limit);
    }
  }

  lemma CutIsValid(s: string, sep: char, limit: nat)
    requires AllAllowed(s, sep) && !HasPair(s, sep) && |s| > limit && s[0] != sep
    ensures ValidName(Cut(s, sep, limit), sep, limit) && Letters(Cut(s, sep, limit), sep) <= Letters(s, sep)
    ensures limit > 0 ==> Cut(s, sep, limit) != ""
  {
    var short := s[..limit];
    var r := TrimRight(short, sep);
    TrimRightIs(short, sep);
    LettersPrefix(s, r, sep);
    assert r != "" ==> r[0] == s[0];
  }

  /** A valid name is left alone, so sanitizing twice is sanitizing once. */
  lemma ValidIsFixed(name: string, sep: char, limit: nat, lower: char -> char)
    requires Lowers(lower) && lower(sep) == sep && ValidName(name, sep, limit)
    ensures Sanitized(name, sep, limit, lower) == name
  {
    assert MapAll(name, sep, lower) == name;
    TrimLeftIs(name, sep);
    TrimRightIs(name, sep);
    CollapsedAlready(name, sep);
  }

  lemma SanitizeTwice(name: string, sep: char, limit: nat, lower: char -> char)
    requires Lowers(lower) && lower(sep) == sep
    ensures var r := Sanitized(name, sep, limit, lower); Sanitized(r, sep, limit, lower) == r
  {
    SanitizedIsValid(name, sep, limit, lower);
    ValidIsFixed(Sanitized(name, sep, limit, lower), sep, limit, lower);
  }

  lemma {:induction false} NoLetters(s: string, sep: char)
    ensures Letters(s, sep) == "" <==> forall i :: 0 <= i < |s| ==> s[i] == sep
    decreases |s|
  {
    if s != "" {
      NoLetters(s[1..], sep);
      assert forall i :: 0 < i < |s| ==> s[i] == s[1..][i - 1];
    }
  }

  /** The result is empty exactly when no character of the name maps to a letter; such a
      name is not rejected. */
  lemma EmptyExactly(name: string, sep: char, limit: nat, lower: char -> char)
    requires limit > 0
    ensures Sanitized(name, sep, limit, lower) == "" <==>
            forall i :: 0 <= i < |name| ==> Mapped(name[i], sep, lower) == sep
  {
    var mapped := MapAll(name, sep, lower);
    var left := TrimLeft(mapped, sep);
    var trimmed := TrimRight(left, sep);
    TrimLeftIs(mapped, sep);
    TrimRightIs(left, sep);
    CollapseIs(trimmed, sep);
    NoLetters(mapped, sep);
    NoLetters(trimmed, sep);
    assert forall i :: 0 <= i < |name| ==> mapped[i] == Mapped(name[i], sep, lower);
    if forall i :: 0 <= i < |mapped| ==> mapped[i] == sep {
      forall i | 0 <= i < |name| ensures Mapped(name[i], sep, lower) == sep {
        assert mapped[i] == sep;
      }
    }
    var collapsed := Collapse(trimmed, sep);
    assert trimmed != "" ==> trimmed[0] == left[0] != sep;
    if |collapsed| > limit {
      CutIsValid(collapsed, sep, limit);
    }
  }

  method SanitizeAppName(name: string, lower: char -> char) returns (r: string)
    ensures r == Sanitized(name, '-', 63, lower)
    ensures ValidName(r, '-', 63)
    ensures Lowers(lower) && lower(APP_SEPARATOR) == APP_SEPARATOR && ValidName(name, APP_SEPARATOR, APP_LIMIT) ==> r == name
  {
    SanitizedIsValid(name, APP_SEPARATOR, APP_LIMIT, lower);
    if Lowers(lower) && lower(APP_SEPARATOR) == APP_SEPARATOR && ValidName(name, APP_SEPARATOR, APP_LIMIT) {
      ValidIsFixed(name, APP_SEPARATOR, APP_LIMIT, lower);
    }
    r := SanitizeName(name, APP_SEPARATOR, APP_LIMIT, lower);
  }

  method SanitizeVolumeName(name: string, lower: char -> char) returns (r: string)
    ensures r == Sanitized(name, '_', 30, lower)
    ensures ValidName(r, '_', 30)
    ensures Lowers(lower) && lower(VOLUME_SEPARATOR) == VOLUME_SEPARATOR && ValidName(name, VOLUME_SEPARATOR, VOLUME_LIMIT) ==> r == name
  {
    SanitizedIsValid(name, VOLUME_SEPARATOR, VOLUME_LIMIT, lower);
    if Lowers(lower) && lower(VOLUME_SEPARATOR) == VOLUME_SEPARATOR && ValidName(name, VOLUME_SEPARATOR, VOLUME_LIMIT) {
      ValidIsFixed(name, VOLUME_SEPARATOR, VOLUME_LIMIT, lower);
    }
    r := SanitizeName(name, VOLUME_SEPARATOR, VOLUME_LIMIT, lower);
  }
}
