/** Log levels and their wire texts (log/level.go). */
module Levels {
  import opened ByteText

  const TACITURN: int := -1
  const NORMAL: int := 0
  const VERBOSE: int := 1

  /** "taciturn", "normal" and "verbose": entry `i` is the text of level `i - 1`. */
  const TEXTS: seq<Bytes> := [
    [116, 97, 99, 105, 116, 117, 114, 110],
    [110, 111, 114, 109, 97, 108],
    [118, 101, 114, 98, 111, 115, 101]
  ]

  predicate ValidLevel(lvl: int) { TACITURN <= lvl <= VERBOSE }

  /** `MarshalText`; None is the error for a value outside the table. */
  function MarshalText(lvl: int): Option<Bytes> {
    var i := lvl + 1;
    if 0 <= i < |TEXTS| then Some(TEXTS[i]) else None
  }

  function TextOf(lvl: int): (t: Bytes)
    requires ValidLevel(lvl)
    ensures MarshalText(lvl) == Some(t)
    ensures t != [] && SP !in t && NL !in t
  {
    TEXTS[lvl + 1]
  }

  /** The level whose text is `text`, if any. */
  function LevelOf(text: Bytes): (r: Option<int>)
    ensures r.Some? ==> ValidLevel(r.value) && TextOf(r.value) == text
    ensures r.None? ==> forall l | ValidLevel(l) :: TextOf(l) != text
  {
    if text == TextOf(TACITURN) then Some(TACITURN)
    else if text == TextOf(NORMAL) then Some(NORMAL)
    else if text == TextOf(VERBOSE) then Some(VERBOSE)
    else None
  }

  lemma LevelTextsDistinct(lvl: int)
    requires ValidLevel(lvl)
    ensures TextOf(lvl) == TEXTS[lvl + 1] && LevelOf(TextOf(lvl)) == Some(lvl)
  {
  }

  /** `UnmarshalText`: the scan of the table meets the level that marshals to `text`. */
  method UnmarshalText(text: Bytes) returns (r: Option<int>)
    ensures r == LevelOf(text)
    ensures forall l :: r == Some(l) <==> MarshalText(l) == Some(text)
  {
    for i := 0 to |TEXTS|
      invariant forall j :: 0 <= j < i ==> TEXTS[j] != text
    {
      if TEXTS[i] == text {
        LevelTextsDistinct(i - 1);
        assert forall l | ValidLevel(l) :: LevelOf(TextOf(l)) == Some(l) by {
          forall l | ValidLevel(l) ensures LevelOf(TextOf(l)) == Some(l) { LevelTextsDistinct(l); }
        }
        return Some(i - 1);
      }
    }
    assert TextOf(TACITURN) == TEXTS[0] && TextOf(NORMAL) == TEXTS[1] && TextOf(VERBOSE) == TEXTS[2];
    return None;
  }
}
