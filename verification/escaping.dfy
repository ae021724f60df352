/** The line-item description as it is stored: every apostrophe doubled,
    `description.replace("'", "''")`, and the empty text when the
    description is missing or empty. */
module Escaping {
  import opened Results

  const Quote: char := '\''

  function Occurrences(s: string, c: char): nat
    decreases |s|
  {
    if s == [] then 0 else (if s[0] == c then 1 else 0) + Occurrences(s[1..], c)
  }

  /** Doubles every apostrophe, left to right. */
  function Escape(s: string): (r: string)
    ensures |r| == |s| + Occurrences(s, Quote)
    decreases |s|
  {
    if s == [] then [] else (if s[0] == Quote then [Quote, Quote] else [s[0]]) + Escape(s[1..])
  }

  /** Collapses each `''` back to `'`, reading left to right. */
  function Unescape(s: string): string
    decreases |s|
  {
    if |s| >= 2 && s[0] == Quote && s[1] == Quote then [Quote] + Unescape(s[2..])
    else if s == [] then []
    else [s[0]] + Unescape(s[1..])
  }

  /** Collapsing the doubled apostrophes recovers the original text. */
  lemma {:induction false} UnescapeEscape(s: string)
    ensures Unescape(Escape(s)) == s
    decreases |s|
  {
    if s != [] {
      UnescapeEscape(s[1..]);
      var rest := Escape(s[1..]);
      if s[0] == Quote {
        assert Escape(s) == [Quote, Quote] + rest;
        assert Escape(s)[2..] == rest;
      } else {
        assert Escape(s) == [s[0]] + rest;
        assert Escape(s)[1..] == rest;
      }
    }
  }

  /** Escaping distributes over concatenation, so it acts on each character alone. */
  lemma {:induction false} EscapeAppend(a: string, b: string)
    ensures Escape(a + b) == Escape(a) + Escape(b)
    decreases |a|
  {
    if a == [] {
      assert a + b == b;
    } else {
      assert (a + b)[0] == a[0];
      assert (a + b)[1..] == a[1..] + b;
      EscapeAppend(a[1..], b);
      var head := if a[0] == Quote then [Quote, Quote] else [a[0]];
      assert Escape(a + b) == head + (Escape(a[1..]) + Escape(b));
      assert Escape(a) == head + Escape(a[1..]);
    }
  }

  /** Text without apostrophes is stored as it is. */
  lemma {:induction false} EscapeWithoutQuotes(s: string)
    requires forall i :: 0 <= i < |s| ==> s[i] != Quote
    ensures Escape(s) == s
    decreases |s|
  {
    if s != [] {
      EscapeWithoutQuotes(s[1..]);
    }
  }

  /** The stored description: the escaped text, or the empty text when it is missing or empty. */
  function StoredDescription(d: Option<string>): (r: string)
    ensures d.None? ==> r == []
    ensures d.Some? ==> |r| == |d.value| + Occurrences(d.value, Quote)
    ensures Unescape(r) == d.GetOr([])
  {
    match d
    case None => []
    case Some(s) =>
      UnescapeEscape(s);
      if s == [] then [] else Escape(s)
  }

  lemma EscapeExample()
    ensures Escape("it's") == "it''s"
  {
    assert Escape("s") == "s";
    assert Escape("'s") == "''s";
    assert Escape("t's") == "t''s";
  }
}
