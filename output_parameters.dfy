/**
 * `OutputParameters` (src/vash/OutputParameters.java): the output file name, the image
 * type its extension selects, and the image size.
 */
module Outputs {
  import opened Wrappers
  import opened Jvm

  /** The four final fields; `imageType` is the format name handed to the image writer. */
  datatype OutputParameters = OutputParameters(filename: string, imageType: string, width: int, height: int)

  /** The extensions recognised, with the image type each selects, in the order they are tested. */
  const EXTENSIONS: seq<(string, string)> := [(".png", "png"), (".jpg", "jpeg"), (".bmp", "bmp")]

  /** The name `-` stands for standard output, written as PNG. */
  const STDOUT_NAME: string := "-"

  /**
   * `OutputParameters(filename, width, height)`: the lower-cased name is tested for the
   * suffixes ".png", ".jpg", ".bmp" and then for being "-". Otherwise the constructor throws
   * `IllegalArgumentException`, except that building that exception's message takes the
   * last four characters of the name and so throws `StringIndexOutOfBoundsException` first
   * when the name is shorter than four characters.
   */
  function NewOutputParameters(filename: string, width: int, height: int): (r: Result<OutputParameters, Exception>)
    ensures r.Success? <==> filename == STDOUT_NAME || exists k :: 0 <= k < |EXTENSIONS| && EndsWith(ToLower(filename), EXTENSIONS[k].0)
    ensures r.Success? ==> r.value.filename == filename && r.value.width == width && r.value.height == height
    ensures r.Failure? ==> r.error == (if |filename| < 4 then IndexOutOfBounds else IllegalArgument)
  {
    var tmp := ToLower(filename);
    LowerDash(filename);
    assert EXTENSIONS[0].0 == ".png" && EXTENSIONS[1].0 == ".jpg" && EXTENSIONS[2].0 == ".bmp";
    if EndsWith(tmp, ".png") then Success(OutputParameters(filename, "png", width, height))
    else if EndsWith(tmp, ".jpg") then Success(OutputParameters(filename, "jpeg", width, height))
    else if EndsWith(tmp, ".bmp") then Success(OutputParameters(filename, "bmp", width, height))
    else if tmp == STDOUT_NAME then Success(OutputParameters(filename, "png", width, height))
    else if |filename| < 4 then Failure(IndexOutOfBounds)
    else Failure(IllegalArgument)
  }

  /** Only "-" itself lower-cases to "-". */
  lemma LowerDash(s: string)
    ensures ToLower(s) == STDOUT_NAME <==> s == STDOUT_NAME
  {
    if |s| == 1 {
      assert ToLower(s)[0] == LowerChar(s[0]);
    }
  }

  /** The image type is the one listed for the extension the name ends with, and "png" for "-". */
  lemma ImageTypeFromTable(filename: string, width: int, height: int)
    requires NewOutputParameters(filename, width, height).Success?
    ensures var t := NewOutputParameters(filename, width, height).value.imageType;
      if filename == STDOUT_NAME then t == "png"
      else exists k :: 0 <= k < |EXTENSIONS| && EndsWith(ToLower(filename), EXTENSIONS[k].0) && t == EXTENSIONS[k].1
  {
    var tmp := ToLower(filename);
    if filename == STDOUT_NAME {
      assert !EndsWith(tmp, ".png") && !EndsWith(tmp, ".jpg") && !EndsWith(tmp, ".bmp");
    } else if EndsWith(tmp, ".png") {
      assert EXTENSIONS[0].0 == ".png";
    } else if EndsWith(tmp, ".jpg") {
      assert EXTENSIONS[1].0 == ".jpg";
    } else {
      assert EXTENSIONS[2].0 == ".bmp";
    }
  }

  /**
   * The three suffixes exclude one another, so the order of the tests does not matter: a
   * name ending in one of them gets that one's type.
   */
  lemma ExtensionDecides(filename: string, k: nat, width: int, height: int)
    requires k < |EXTENSIONS| && EndsWith(ToLower(filename), EXTENSIONS[k].0)
    ensures NewOutputParameters(filename, width, height) == Success(OutputParameters(filename, EXTENSIONS[k].1, width, height))
  {
    var tmp := ToLower(filename);
    var tail := tmp[|tmp| - 4..];
    assert tail == EXTENSIONS[k].0;
    assert EndsWith(tmp, ".png") ==> tail == ".png";
    assert EndsWith(tmp, ".jpg") ==> tail == ".jpg";
  }

  /** Matching ignores letter case, and the name is kept as given. */
  lemma CaseInsensitive(f: string, g: string, width: int, height: int)
    requires ToLower(f) == ToLower(g)
    ensures NewOutputParameters(f, width, height).Success? == NewOutputParameters(g, width, height).Success?
    ensures NewOutputParameters(f, width, height).Success? ==>
      NewOutputParameters(f, width, height).value.imageType == NewOutputParameters(g, width, height).value.imageType &&
      NewOutputParameters(f, width, height).value.filename == f
  {
    LowerDash(f);
    LowerDash(g);
  }

  /** The names of the unit tests that are accepted: "foo.png", "foo.bmp", "foo.jpg" and "-". */
  lemma AcceptedNames()
    ensures NewOutputParameters("foo.png", 64, 64) == Success(OutputParameters("foo.png", "png", 64, 64))
    ensures NewOutputParameters("foo.bmp", 64, 64) == Success(OutputParameters("foo.bmp", "bmp", 64, 64))
    ensures NewOutputParameters("foo.jpg", 64, 64) == Success(OutputParameters("foo.jpg", "jpeg", 64, 64))
    ensures NewOutputParameters("-", 64, 64) == Success(OutputParameters("-", "png", 64, 64))
  {
    LowerCaseName("foo.png", 0);
    LowerCaseName("foo.jpg", 1);
    LowerCaseName("foo.bmp", 2);
  }

  /** One of the accepted test names: already lower case, ending in the k-th suffix. */
  lemma LowerCaseName(filename: string, k: nat)
    requires filename in ["foo.png", "foo.jpg", "foo.bmp"] && k < |EXTENSIONS|
    requires filename[3..] == EXTENSIONS[k].0
    ensures NewOutputParameters(filename, 64, 64) == Success(OutputParameters(filename, EXTENSIONS[k].1, 64, 64))
  {
    assert ToLower(filename) == filename;
    ExtensionDecides(filename, k, 64, 64);
  }

  /** A name of four characters or more whose lower-cased last four are none of the suffixes is refused. */
  lemma NoSuffixRefused(filename: string, width: int, height: int)
    requires |filename| >= 4 && ToLower(filename) != STDOUT_NAME
    requires forall k :: 0 <= k < |EXTENSIONS| ==> ToLower(filename)[|filename| - 4..] != EXTENSIONS[k].0
    ensures NewOutputParameters(filename, width, height) == Failure(IllegalArgument)
  {
    LowerDash(filename);
    assert EXTENSIONS[0].0 == ".png" && EXTENSIONS[1].0 == ".jpg" && EXTENSIONS[2].0 == ".bmp";
  }

  /**
   * Names refused: "foo.bar", as the unit test expects; "foo.jpeg", whose last four
   * characters "jpeg" are none of the suffixes; and a short name, while the message is built.
   */
  lemma RefusedNames()
    ensures NewOutputParameters("foo.bar", 64, 64) == Failure(IllegalArgument)
    ensures NewOutputParameters("foo.jpeg", 64, 64) == Failure(IllegalArgument)
    ensures NewOutputParameters("a", 64, 64) == Failure(IndexOutOfBounds)
  {
    RefusedLowerName("foo.bar");
    RefusedLowerName("foo.jpeg");
    assert ToLower("a") == "a";
  }

  /** "foo.bar" or "foo.jpeg": already lower case, with none of the suffixes. */
  lemma RefusedLowerName(filename: string)
    requires filename in ["foo.bar", "foo.jpeg"]
    ensures NewOutputParameters(filename, 64, 64) == Failure(IllegalArgument)
  {
    assert ToLower(filename) == filename;
    NoSuffixRefused(filename, 64, 64);
  }
}
