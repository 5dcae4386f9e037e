/** `AnimationMode` (src/vash/AnimationMode.java): the two keyframe policies and their parser. */
module Animation {
  import opened Wrappers
  import opened Jvm

  datatype AnimationMode = WRAP | STREAM

  /** The enum constant's `name()`. */
  function Name(m: AnimationMode): string {
    match m
    case WRAP => "WRAP"
    case STREAM => "STREAM"
  }

  /**
   * `parseAnimationMode`: "WRAP", then "STREAM", each compared ignoring letter case; any
   * other string throws `IllegalArgumentException`.
   */
  function ParseAnimationMode(s: string): (r: Result<AnimationMode, Exception>)
    ensures r.Success? ==> EqualsIgnoreCase(s, Name(r.value))
    ensures r.Failure? ==> r.error == IllegalArgument && forall m: AnimationMode :: !EqualsIgnoreCase(s, Name(m))
  {
    if EqualsIgnoreCase(s, "WRAP") then Success(WRAP)
    else if EqualsIgnoreCase(s, "STREAM") then Success(STREAM)
    else Failure(IllegalArgument)
  }

  /** Parsing a constant's own name gives the constant back. */
  lemma ParseName(m: AnimationMode)
    ensures ParseAnimationMode(Name(m)) == Success(m)
  {
    assert ToLower("WRAP") == "wrap";
    assert ToLower("STREAM") == "stream";
  }

  /** Spellings that differ only in letter case parse alike. */
  lemma ParseIgnoresCase(s: string, t: string)
    requires ToLower(s) == ToLower(t)
    ensures ParseAnimationMode(s) == ParseAnimationMode(t)
  {
  }

  /** A string parses to `m` exactly when it is `m`'s name in some letter case. */
  lemma ParseExactly(s: string, m: AnimationMode)
    ensures ParseAnimationMode(s) == Success(m) <==> EqualsIgnoreCase(s, Name(m))
  {
    assert ToLower("WRAP") == "wrap";
    assert ToLower("STREAM") == "stream";
  }
}
