/** The span `extract_json_block` hands to the JSON parser: a search for
    `\{.*\}` where `.` also matches newlines. The leftmost match starts at
    the first `{`, and the greedy `.*` runs it to the last `}` after that. */
module JsonBlock {
  import opened Results

  /** Positions `i` and `j` bound a match of `\{.*\}`. */
  predicate IsMatch(text: string, i: int, j: int) {
    0 <= i < j < |text| && text[i] == '{' && text[j] == '}'
  }

  /** The first position holding `c`. */
  function FirstIndex(text: string, c: char): (r: Option<nat>)
    ensures r.None? <==> forall k :: 0 <= k < |text| ==> text[k] != c
    ensures r.Some? ==> r.value < |text| && text[r.value] == c && forall k :: 0 <= k < r.value ==> text[k] != c
    decreases |text|
  {
    if text == [] then None
    else if text[0] == c then Some(0)
    else match FirstIndex(text[1..], c)
      case None => None
      case Some(k) => Some(k + 1)
  }

  /** The last position holding `c`. */
  function LastIndex(text: string, c: char): (r: Option<nat>)
    ensures r.None? <==> forall k :: 0 <= k < |text| ==> text[k] != c
    ensures r.Some? ==> r.value < |text| && text[r.value] == c && forall k :: r.value < k < |text| ==> text[k] != c
    decreases |text|
  {
    if text == [] then None
    else if text[|text| - 1] == c then Some(|text| - 1)
    else LastIndex(text[..|text| - 1], c)
  }

  /** The bounds of the matched span, or None when the search finds no
      match (the source then fails with ValueError). */
  function BraceBounds(text: string): (r: Option<(nat, nat)>)
    ensures r.Some? ==> IsMatch(text, r.value.0, r.value.1)
  {
    match (FirstIndex(text, '{'), LastIndex(text, '}'))
    case (Some(i), Some(j)) => if i < j then Some((i, j)) else None
    case _ => None
  }

  /** The text of the matched span. */
  function BraceSpan(text: string): (r: Option<string>)
    ensures r.Some? ==> 2 <= |r.value| <= |text| && r.value[0] == '{' && r.value[|r.value| - 1] == '}'
  {
    match BraceBounds(text)
    case None => None
    case Some((i, j)) => Some(text[i..j + 1])
  }

  /** There is a span exactly when some `{` comes before some `}`; and the
      span is the leftmost match, and of the matches starting there the
      longest: that is the search's answer for this pattern. */
  lemma BraceBoundsLeftmostLongest(text: string)
    ensures BraceBounds(text).Some? <==> exists i, j :: IsMatch(text, i, j)
    ensures BraceBounds(text).Some? ==>
      var (i, j) := BraceBounds(text).value;
      forall i', j' :: IsMatch(text, i', j') ==> i <= i' && j' <= j
  {
    var first := FirstIndex(text, '{');
    var last := LastIndex(text, '}');
    if exists i, j :: IsMatch(text, i, j) {
      var i, j :| IsMatch(text, i, j);
      assert first.Some? && first.value <= i;
      assert last.Some? && j <= last.value;
    }
  }

  /** Worked examples: prose around an object with a nested object yields the
      outermost object, and a `}` before the only `{` yields nothing. */
  lemma BraceSpanExample()
    ensures BraceSpan("x{{}}y") == Some("{{}}")
    ensures BraceSpan("}{") == None
  {
    var text := "x{{}}y";
    assert text[0] != '{' && text[1] == '{';
    assert text[5] != '}' && text[4] == '}';
    assert FirstIndex(text, '{') == Some(1);
    assert LastIndex(text, '}') == Some(4);
    assert text[1..5] == "{{}}";
    var bad := "}{";
    assert bad[0] != '{' && bad[1] != '}';
    assert FirstIndex(bad, '{') == Some(1);
    assert LastIndex(bad, '}') == Some(0);
  }
}
