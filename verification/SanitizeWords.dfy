/** What a sanitized name looks like, told from the name alone: its words, that is its
    runs of lower-cased letters and digits, joined by single separators and cut to length. */
module SanitizeWords {
  import opened Sanitize

  predicate LetterOrDigit(c: char) { 'a' <= c <= 'z' || '0' <= c <= '9' }

  function Flush(current: string): seq<string> { if current == "" then [] else [current] }

  /** The words of a name, `current` being the part of the first one already read. */
  function NameWords(name: string, current: string, lower: char -> char): seq<string>
    decreases |name|
  {
    if name == "" then Flush(current)
    else if LetterOrDigit(lower(name[0])) then NameWords(name[1..], current + [lower(name[0])], lower)
    else Flush(current) + NameWords(name[1..], "", lower)
  }

  function JoinWords(words: seq<string>, sep: char): string {
    if words == [] then ""
    else if |words| == 1 then words[0]
    else words[0] + [sep] + JoinWords(words[1..], sep)
  }

  /** The words of a mapped name: what lies between separators. */
  function Split(s: string, current: string, sep: char): seq<string>
    decreases |s|
  {
    if s == "" then Flush(current)
    else if s[0] == sep then Flush(current) + Split(s[1..], "", sep)
    else Split(s[1..], current + [s[0]], sep)
  }

  lemma {:induction false} SplitMapped(name: string, current: string, sep: char, lower: char -> char)
    requires !LetterOrDigit(sep)
    ensures Split(MapAll(name, sep, lower), current, sep) == NameWords(name, current, lower)
    decreases |name|
  {
    if name != "" {
      assert MapAll(name, sep, lower)[1..] == MapAll(name[1..], sep, lower);
      SplitMapped(name[1..], "", sep, lower);
      SplitMapped(name[1..], current + [lower(name[0])], sep, lower);
    }
  }

  lemma {:induction false} SplitTrimLeft(s: string, sep: char)
    ensures Split(TrimLeft(s, sep), "", sep) == Split(s, "", sep)
    decreases |s|
  {
    if s != "" && s[0] == sep {
      SplitTrimLeft(s[1..], sep);
    }
  }

  lemma {:induction false} SplitSnoc(s: string, current: string, sep: char)
    ensures Split(s + [sep], current, sep) == Split(s, current, sep)
    decreases |s|
  {
    if s == "" {
      assert s + [sep] == [sep] && [sep][1..] == "";
      assert Flush(current) + Flush("") == Flush(current);
    } else {
      assert (s + [sep])[0] == s[0] && (s + [sep])[1..] == s[1..] + [sep];
      SplitSnoc(s[1..], "", sep);
      SplitSnoc(s[1..], current + [s[0]], sep);
    }
  }

  lemma {:induction false} SplitTrimRight(s: string, sep: char)
    ensures Split(TrimRight(s, sep), "", sep) == Split(s, "", sep)
    decreases |s|
  {
    if s != "" && s[|s| - 1] == sep {
      var before := s[..|s| - 1];
      SplitTrimRight(before, sep);
      SplitSnoc(before, "", sep);
      assert s == before + [sep];
    }
  }

  lemma {:induction false} SplitCollapse(s: string, current: string, sep: char)
    ensures Split(Collapse(s, sep), current, sep) == Split(s, current, sep)
    decreases |s|
  {
    if s != "" {
      var rest := s[1..];
      if |s| > 1 && s[0] == sep && s[1] == sep {
        SplitCollapse(rest, current, sep);
        assert rest[0] == sep;
        assert Split(rest, "", sep) == Flush("") + Split(rest[1..], "", sep);
      } else {
        var t := Collapse(s, sep);
        assert t[0] == s[0] && t[1..] == Collapse(rest, sep);
        SplitCollapse(rest, "", sep);
        SplitCollapse(rest, current + [s[0]], sep);
      }
    }
  }

  /** A text with single separators inside only is its words joined. */
  lemma {:induction false} JoinSplit(s: string, current: string, sep: char)
    requires !HasPair(s, sep) && (s != "" ==> s[|s| - 1] != sep) && (current == "" && s != "" ==> s[0] != sep)
    ensures JoinWords(Split(s, current, sep), sep) == current + s
    decreases |s|
  {
    if s == "" {
      assert current + s == current;
    } else {
      var rest := s[1..];
      assert !HasPair(rest, sep) by {
        assert forall i :: 0 <= i < |rest| ==> rest[i] == s[i + 1];
      }
      assert rest != "" ==> rest[|rest| - 1] == s[|s| - 1];
      if s[0] == sep {
        assert rest != "" && rest[0] == s[1];
        JoinSplit(rest, "", sep);
        var words := Split(rest, "", sep);
        assert JoinWords(words, sep) == rest && words != [];
        assert Split(s, current, sep) == [current] + words && ([current] + words)[1..] == words;
        assert current + [sep] + rest == current + s;
      } else {
        JoinSplit(rest, current + [s[0]], sep);
        assert current + [s[0]] + rest == current + s;
      }
    }
  }

  /** The whole effect of the sanitizer: the words of the name, joined by one separator; if
      that is too long its beginning, without the separator the cut may leave at the end. */
  lemma SanitizedExactly(name: string, sep: char, limit: nat, lower: char -> char)
    requires !LetterOrDigit(sep)
    ensures var joined := JoinWords(NameWords(name, "", lower), sep);
            Sanitized(name, sep, limit, lower) ==
            if |joined| <= limit then joined
            else if limit > 0 && joined[limit - 1] == sep then joined[..limit - 1]
            else joined[..limit]
  {
    var mapped := MapAll(name, sep, lower);
    var left := TrimLeft(mapped, sep);
    var trimmed := TrimRight(left, sep);
    var collapsed := Collapse(trimmed, sep);
    SplitMapped(name, "", sep, lower);
    SplitTrimLeft(mapped, sep);
    SplitTrimRight(left, sep);
    SplitCollapse(trimmed, "", sep);
    TrimLeftIs(mapped, sep);
    TrimRightIs(left, sep);
    CollapseIs(trimmed, sep);
    assert trimmed != "" ==> trimmed[0] == left[0];
    JoinSplit(collapsed, "", sep);
    assert "" + collapsed == collapsed;
    if |collapsed| > limit {
      CutOnce(collapsed, sep, limit);
    }
  }

  /** Separators are single, so a cut leaves at most one at the end. */
  lemma CutOnce(s: string, sep: char, limit: nat)
    requires !HasPair(s, sep) && |s| > limit
    ensures Cut(s, sep, limit) == if limit > 0 && s[limit - 1] == sep then s[..limit - 1] else s[..limit]
  {
    var short := s[..limit];
    if limit > 0 && s[limit - 1] == sep {
      var shorter := s[..limit - 1];
      assert short[..|short| - 1] == shorter;
      assert limit > 1 ==> shorter[limit - 2] == s[limit - 2] != sep;
      assert TrimRight(shorter, sep) == shorter;
    }
  }
}
