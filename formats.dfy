/** Names: the splat format a file name or URL suggests, and the scene name shown
    once a load completes. */
module Formats {
  import opened Wrappers
  import opened Text

  /** The three point-cloud formats the renderer accepts a hint for. */
  datatype SceneFormat = KSplat | Splat | Ply

  /** The file extension that announces each format. */
  function Extension(f: SceneFormat): string {
    match f
    case KSplat => ".ksplat"
    case Splat => ".splat"
    case Ply => ".ply"
  }

  /** The string the suffix tests run on: the lower-cased name, or "" for null. */
  function Normalized(nameOrUrl: Option<string>): (n: string)
    ensures nameOrUrl.None? ==> n == ""
    ensures |n| == |nameOrUrl.GetOr("")|
    ensures forall i :: 0 <= i < |n| ==> !('A' <= n[i] <= 'Z')
  {
    Lower(nameOrUrl.GetOr(""))
  }

  /** No name ends in two of the extensions: ".ksplat" and ".splat" differ in the
      sixth character from the end, ".ply" in the last. */
  lemma ExtensionsExclusive(s: string)
    ensures !(EndsWith(s, ".ksplat") && EndsWith(s, ".splat"))
    ensures !(EndsWith(s, ".ply") && (EndsWith(s, ".splat") || EndsWith(s, ".ksplat")))
  {
    if EndsWith(s, ".ksplat") {
      assert s[|s| - 6] == 'k';
    }
    if EndsWith(s, ".ply") {
      assert s[|s| - 1] == 'y';
    }
  }

  /** `guessFormat`: the format whose extension the lower-cased name ends with, or no
      hint for any other name and for null. */
  function GuessFormat(nameOrUrl: Option<string>): (f: Option<SceneFormat>)
    ensures forall g :: f == Some(g) <==> EndsWith(Normalized(nameOrUrl), Extension(g))
  {
    var s := Normalized(nameOrUrl);
    ExtensionsExclusive(s);
    if EndsWith(s, ".ksplat") then Some(KSplat)
    else if EndsWith(s, ".splat") then Some(Splat)
    else if EndsWith(s, ".ply") then Some(Ply)
    else None
  }

  /** Any name ending in a format's extension, written in any letter case, gets that
      format: `ext` is any spelling of the extension that lower-cases to it. */
  lemma {:induction false} GuessFormatOfExtension(base: string, ext: string, f: SceneFormat)
    requires Lower(ext) == Extension(f)
    ensures GuessFormat(Some(base + ext)) == Some(f)
  {
    LowerAppend(base, ext);
    var s := Lower(base + ext);
    assert s[|s| - |ext|..] == Lower(ext);
  }

  /** The guess depends on the name only up to letter case. */
  lemma GuessFormatIgnoresCase(s: string)
    ensures GuessFormat(Some(Lower(s))) == GuessFormat(Some(s))
  {
    LowerIdempotent(s);
  }

  /** ".KSPLAT" lower-cases to the KSplat extension. */
  lemma LowerUpperKSplat()
    ensures Lower(".KSPLAT") == Extension(KSplat)
  {
    assert LowerChar('K') == 'k' && LowerChar('S') == 's' && LowerChar('P') == 'p';
    assert LowerChar('L') == 'l' && LowerChar('A') == 'a' && LowerChar('T') == 't';
    assert LowerChar('.') == '.';
  }

  /** An upper-case ".KSPLAT" name is KSplat, not Splat. */
  lemma UpperCaseKSplatExample()
    ensures GuessFormat(Some("A.KSPLAT")) == Some(KSplat)
  {
    LowerUpperKSplat();
    GuessFormatOfExtension("A", ".KSPLAT", KSplat);
    assert "A" + ".KSPLAT" == "A.KSPLAT";
  }

  /** ".\U{212A}SPLAT", with the KELVIN SIGN, lower-cases to the KSplat extension. */
  lemma LowerKelvinKSplat()
    ensures Lower(".\U{212A}SPLAT") == Extension(KSplat)
  {
    assert LowerChar('\U{212A}') == 'k' && LowerChar('S') == 's' && LowerChar('P') == 'p';
    assert LowerChar('L') == 'l' && LowerChar('A') == 'a' && LowerChar('T') == 't';
    assert LowerChar('.') == '.';
  }

  /** A name whose extension starts with the KELVIN SIGN lower-cases to ".ksplat", as
      it does in JavaScript, and so is KSplat. */
  lemma KelvinKSplatExample()
    ensures GuessFormat(Some("a.\U{212A}SPLAT")) == Some(KSplat)
  {
    var name := "a.\U{212A}SPLAT";
    assert name[1..] == ".\U{212A}SPLAT";
    assert name == [name[0]] + name[1..];
    LowerKelvinKSplat();
    GuessFormatOfExtension([name[0]], name[1..], KSplat);
  }

  /** A lower-case ".ksplat" name is KSplat. */
  lemma LowerCaseKSplatExample()
    ensures GuessFormat(Some("flood.ksplat")) == Some(KSplat)
  {
    var name := "flood.ksplat";
    assert name[5..] == Extension(KSplat);
    assert name == name[..5] + name[5..];
    LowerUpperKSplat();
    LowerIdempotent(".KSPLAT");
    GuessFormatOfExtension(name[..5], name[5..], KSplat);
  }

  /** A missing name and an empty one give no hint. */
  lemma NoNameExamples()
    ensures GuessFormat(None) == None
    ensures GuessFormat(Some("")) == None
  {
    GuessFormatNoHint("");
  }

  /** A name whose last character, lower-cased, is not the last character of an
      extension gives no hint, e.g. "scene.ply.gz"; nor does ".ksplat" without its dot. */
  lemma GuessFormatNoHint(s: string)
    requires s == "" || LowerChar(s[|s| - 1]) !in {'t', 'y'}
    ensures GuessFormat(Some(s)) == None
  {
    var n := Lower(s);
    if s != "" {
      assert n[|n| - 1] == LowerChar(s[|s| - 1]);
    }
  }

  /** The scene name set after a successful load: the text after the URL's last '/',
      or "scene" when that text is empty. */
  function SceneName(url: string): (name: string)
    ensures url == "" || url[|url| - 1] == '/' ==> name == "scene"
    ensures url != "" && url[|url| - 1] != '/' ==>
      && name != ""
      && EndsWith(url, name)
      && '/' !in name
      && (|name| == |url| || url[|url| - |name| - 1] == '/')
  {
    LastPieceIsFinalSegment(url, '/');
    var seg := Last(Split(url, '/'));
    if seg == "" then "scene" else seg
  }

  /** With no '/' at all, the whole non-empty URL is the name. */
  lemma SceneNameWithoutSlash(url: string)
    requires url != "" && '/' !in url
    ensures SceneName(url) == url
  {
  }

  /** The name of a URL "dir/file" is "file" whenever "file" is non-empty and holds no
      '/'; a URL ending in '/' is named "scene". */
  lemma SceneNameOfPath(dir: string, file: string)
    requires file != "" && '/' !in file
    ensures SceneName(dir + "/" + file) == file
    ensures SceneName(dir + "/") == "scene"
  {
    var url := dir + "/" + file;
    var name := SceneName(url);
    assert url[|url| - 1] == file[|file| - 1];
    assert url[|url| - |file| - 1] == '/';
    if |name| > |file| {
      assert false;
    } else if |name| < |file| {
      assert false;
    }
    assert url[|url| - |file|..] == file;
    var d := dir + "/";
    assert d[|d| - 1] == '/';
  }

  /** A URL with a path is named after its file. */
  lemma SceneNameOfFileExample()
    ensures SceneName("https://h/f.ply") == "f.ply"
  {
    assert '/' !in "f.ply";
    SceneNameOfPath("https://h", "f.ply");
    assert "https://h" + "/" + "f.ply" == "https://h/f.ply";
  }

  /** A URL ending in a slash, and the empty URL, are named "scene". */
  lemma SceneNameFallbackExamples()
    ensures SceneName("https://h/") == "scene"
    ensures SceneName("") == "scene"
  {
  }
}
