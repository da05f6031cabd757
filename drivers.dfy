/**
 * The two keyboard drivers: the vendor-specific Tuxedo LED and the generic LED-class
 * device. Their code is identical apart from the three attribute paths it uses, so both
 * are one `Backend` value holding those paths.
 */
module Drivers {
  import opened Prelude
  import opened Text
  import StdIo
  import opened Errors
  import opened Attributes
  import opened Colors

  /** A driver: the brightness, maximum-brightness and colour attribute files it targets. */
  datatype Backend = Backend(brightnessPath: string, maxBrightnessPath: string, colorPath: string) {
    predicate DistinctPaths() {
      brightnessPath != maxBrightnessPath && brightnessPath != colorPath && maxBrightnessPath != colorPath
    }
  }

  /** `TuxedoKeyboard`, the vendor-specific driver. */
  const TuxedoKeyboard := Backend(
    "/sys/devices/platform/tuxedo_keyboard/leds/rgb:kbd_backlight/brightness",
    "/sys/devices/platform/tuxedo_keyboard/leds/rgb:kbd_backlight/max_brightness",
    "/sys/devices/platform/tuxedo_keyboard/leds/rgb:kbd_backlight/multi_intensity")

  /** `SysfsKeyboard`, the generic LED-class driver. */
  const SysfsKeyboard := Backend(
    "/sys/class/leds/rgb:kbd_backlight/brightness",
    "/sys/class/leds/rgb:kbd_backlight/max_brightness",
    "/sys/class/leds/rgb:kbd_backlight/multi_intensity")

  lemma {:induction false} KnownBackendsDistinctPaths()
    ensures TuxedoKeyboard.DistinctPaths() && SysfsKeyboard.DistinctPaths()
    ensures TuxedoKeyboard.brightnessPath != SysfsKeyboard.brightnessPath
  {
  }

  // ---------------------------------------------------------------- attribute codecs

  /**
   * `content.trim().parse::<u8>()`, a parse failure becoming `InvalidValue`: the level is
   * read exactly when the trimmed text is a `u8`, and it is that number.
   */
  function ParseLevel(content: string): (r: Result<uint8>)
    ensures r.Ok? <==> ParseU8(Trim(content)).Some?
    ensures r.Ok? ==> r.value == ParseU8(Trim(content)).value
    ensures r.Err? ==> r.error == InvalidValue
  {
    match ParseU8(Trim(content))
    case Some(level) => Ok(level)
    case None => Err(InvalidValue)
  }

  /**
   * The colour attribute's reader: split the trimmed text on whitespace, demand at least
   * three tokens and parse the first three as r, g and b; later tokens are ignored.
   */
  function ParseRgb(content: string): (r: Result<Rgb>)
    ensures var parts := SplitWhitespace(Trim(content));
            r.Ok? <==> |parts| >= 3 && ParseU8(parts[0]).Some? && ParseU8(parts[1]).Some? && ParseU8(parts[2]).Some?
    ensures var parts := SplitWhitespace(Trim(content));
            r.Ok? ==> r.value == Rgb(ParseU8(parts[0]).value, ParseU8(parts[1]).value, ParseU8(parts[2]).value)
    ensures r.Err? ==> r.error == InvalidValue
  {
    ParseChannels(SplitWhitespace(Trim(content)))
  }

  /**
   * The tokens of the colour text as `get_rgb` reads them: a colour exactly when there
   * are three tokens or more and the first three are `u8`s, which become r, g and b in
   * that order; otherwise `InvalidValue`.
   */
  function ParseChannels(parts: seq<string>): (r: Result<Rgb>)
    ensures r.Ok? <==> |parts| >= 3 && ParseU8(parts[0]).Some? && ParseU8(parts[1]).Some? && ParseU8(parts[2]).Some?
    ensures r.Ok? ==> r.value == Rgb(ParseU8(parts[0]).value, ParseU8(parts[1]).value, ParseU8(parts[2]).value)
    ensures r.Err? ==> r.error == InvalidValue
  {
    if |parts| < 3 then Err(InvalidValue)
    else
      match (ParseU8(parts[0]), ParseU8(parts[1]), ParseU8(parts[2]))
      case (Some(red), Some(green), Some(blue)) => Ok(Rgb(red, green, blue))
      case _ => Err(InvalidValue)
  }

  /** Tokens after the third play no part in the colour read. */
  lemma {:induction false} ParseChannelsFirstThree(parts: seq<string>)
    requires |parts| >= 3
    ensures ParseChannels(parts) == ParseChannels(parts[..3])
  {
    assert parts[..3][0] == parts[0] && parts[..3][1] == parts[1] && parts[..3][2] == parts[2];
  }

  /** `format!("{} {} {}", rgb.r, rgb.g, rgb.b)`. */
  function FormatRgb(c: Rgb): string {
    Decimal(c.r) + " " + Decimal(c.g) + " " + Decimal(c.b)
  }

  /** A written level reads back, whatever whitespace (a trailing newline, say) surrounds it. */
  lemma {:induction false} LevelRoundTrip(level: uint8, a: string, b: string)
    requires AllWhitespace(a) && AllWhitespace(b)
    ensures ParseLevel(a + Decimal(level) + b) == Ok(level)
  {
    TrimFramed(a, Decimal(level), b);
    ParseDecimal(level);
  }

  /**
   * Colour text made of words separated by any runs of whitespace, and framed by any
   * whitespace, reads as its first three words: further words are ignored.
   */
  lemma {:induction false} ParseRgbReadsFirstThreeTokens(content: string, words: seq<string>, seps: seq<string>,
                                                          a: string, b: string)
    requires |words| >= 3 && |words| == |seps| + 1
    requires forall k | 0 <= k < |words| :: IsWord(words[k])
    requires forall k | 0 <= k < |seps| :: IsSeparator(seps[k])
    requires AllWhitespace(a) && AllWhitespace(b)
    requires content == a + JoinWith(words, seps) + b
    ensures ParseRgb(content) == ParseChannels(words[..3])
  {
    SplitFramedJoin(content, words, seps, a, b);
    ParseChannelsFirstThree(words);
  }

  /** The colour text is the three channel spellings separated by single spaces. */
  lemma {:induction false} FormatRgbJoinsChannels(c: Rgb)
    ensures FormatRgb(c) == JoinWith([Decimal(c.r), Decimal(c.g), Decimal(c.b)], [" ", " "])
  {
    var words, seps := [Decimal(c.r), Decimal(c.g), Decimal(c.b)], [" ", " "];
    assert words[1..][1..] == [Decimal(c.b)] && seps[1..][1..] == [];
    assert JoinWith(words[1..], seps[1..]) == Decimal(c.g) + " " + Decimal(c.b);
  }

  /** What `set_rgb` writes, `get_rgb` reads back, whatever whitespace surrounds it. */
  lemma {:induction false} RgbRoundTrip(c: Rgb, a: string, b: string)
    requires AllWhitespace(a) && AllWhitespace(b)
    ensures ParseRgb(a + FormatRgb(c) + b) == Ok(c)
  {
    var words := [Decimal(c.r), Decimal(c.g), Decimal(c.b)];
    FormatRgbJoinsChannels(c);
    ParseRgbReadsFirstThreeTokens(a + FormatRgb(c) + b, words, [" ", " "], a, b);
    assert words[..3] == words;
    ParseDecimal(c.r);
    ParseDecimal(c.g);
    ParseDecimal(c.b);
  }

  /** The sample channel tokens "10", "20" and "30" are the spellings of `Rgb(10, 20, 30)`. */
  lemma {:induction false} SampleChannels(parts: seq<string>)
    requires |parts| >= 3 && parts[0] == "10" && parts[1] == "20" && parts[2] == "30"
    ensures ParseChannels(parts) == Ok(Rgb(10, 20, 30))
  {
    assert "10"[..1] == "1" && "20"[..1] == "2" && "30"[..1] == "3";
    assert DigitsValue("10") == 10 && DigitsValue("20") == 20 && DigitsValue("30") == 30;
  }

  /** Sample colour text: three tokens make a colour. */
  lemma {:induction false} ParseRgbThreeTokens()
    ensures ParseRgb("10 20 30") == Ok(Rgb(10, 20, 30))
  {
    var s := "10 20 30";
    SplitFramedJoin(s, ["10", "20", "30"], [" ", " "], "", "");
    SampleChannels(SplitWhitespace(Trim(s)));
  }

  /** Sample colour text: a fourth token is ignored. */
  lemma {:induction false} ParseRgbFourTokens()
    ensures ParseRgb("10 20 30 40") == Ok(Rgb(10, 20, 30))
  {
    var s := "10 20 30 40";
    SplitFramedJoin(s, ["10", "20", "30", "40"], [" ", " ", " "], "", "");
    SampleChannels(SplitWhitespace(Trim(s)));
  }

  /** Sample colour text: two tokens are `InvalidValue`. */
  lemma {:induction false} ParseRgbTwoTokens()
    ensures ParseRgb("10 20") == Err(InvalidValue)
  {
    var s := "10 20";
    SplitFramedJoin(s, ["10", "20"], [" "], "", "");
  }

  /** Sample colour text: a token that is not a number is `InvalidValue`. */
  lemma {:induction false} ParseRgbBadToken()
    ensures ParseRgb("abc 1 2") == Err(InvalidValue)
  {
    var s := "abc 1 2";
    SplitFramedJoin(s, ["abc", "1", "2"], [" ", " "], "", "");
    assert !IsDigit("abc"[0]);
  }

  /** Sample colour text: runs of mixed whitespace separate tokens like a single space. */
  lemma {:induction false} ParseRgbMixedSeparators()
    ensures ParseRgb("10  20\n30") == Ok(Rgb(10, 20, 30))
  {
    var s := "10  20\n30";
    SplitFramedJoin(s, ["10", "20", "30"], ["  ", "\n"], "", "");
    SampleChannels(SplitWhitespace(Trim(s)));
  }

  /** Sample level text: blank text is `InvalidValue`, never level 0. */
  lemma {:induction false} ParseLevelBlank()
    ensures ParseLevel(" \n") == Err(InvalidValue)
  {
    var s := " \n";
    TrimFramed(s, "", "");
    assert s + "" + "" == s;
  }

  /** Sample level text: a leading zero and a trailing newline are accepted. */
  lemma {:induction false} ParseLevelPadded()
    ensures ParseLevel("042\n") == Ok(42)
  {
    var s := "042\n";
    TrimFramed("", "042", "\n");
    assert "" + "042" + "\n" == s;
    SampleDigits();
  }

  /** The sample digits "042" are the `u8` 42. */
  lemma {:induction false} SampleDigits()
    ensures ParseU8("042") == Some(42)
  {
    var t := "042";
    assert t[..2] == "04" && t[..2][..1] == "0" && t[..2][..1][..0] == "";
    assert DigitsValue("0") == 0;
    assert DigitsValue("04") == 4;
    assert DigitsValue(t) == 42;
  }

  // ---------------------------------------------------------------- reading attributes

  /** A level attribute as `get_brightness` / `get_max_brightness` read it. */
  function ReadLevel(files: map<string, string>, path: string): (r: Result<uint8>)
    ensures path !in files ==> r == Err(Io(NoSuchFile))
    ensures path in files ==> r == ParseLevel(files[path])
    ensures r.Err? ==> (r.error.Io? <==> path !in files)
    ensures r.Err? && r.error.Io? ==> r.error.source.kind == StdIo.NotFound
    ensures r.Err? && !r.error.Io? ==> r.error == InvalidValue
  {
    match Read(files, path)
    case Err(e) => Err(FromIo(e))
    case Ok(content) => ParseLevel(content)
  }

  /** The colour attribute as `get_rgb` reads it: a complete colour or an error, never part of one. */
  function ReadRgb(files: map<string, string>, path: string): (r: Result<Rgb>)
    ensures path !in files ==> r == Err(Io(NoSuchFile))
    ensures path in files ==> r == ParseRgb(files[path])
    ensures r.Err? ==> (r.error.Io? <==> path !in files)
    ensures r.Err? && r.error.Io? ==> r.error.source.kind == StdIo.NotFound
    ensures r.Err? && !r.error.Io? ==> r.error == InvalidValue
  {
    match Read(files, path)
    case Err(e) => Err(FromIo(e))
    case Ok(content) => ParseRgb(content)
  }

  // ---------------------------------------------------------------- writing attributes

  /** What a state-changing operation returns, and the attribute files it leaves behind. */
  datatype Effect = Effect(result: Result<()>, files: map<string, string>)

  /** `fs::write(path, contents)?; Ok(())`. */
  function WriteEffect(files: map<string, string>, writable: set<string>, path: string, contents: string)
    : (e: Effect)
    ensures e.result.Ok? <==> path in writable
    ensures e.result.Err? ==> e.result.error == Io(if path in files then AccessDenied else NoSuchFile)
    ensures e.result.Err? ==> e.files == files
    ensures e.result.Ok? ==> e.files == files[path := contents]
  {
    match WriteStatus(files, writable, path)
    case Ok(_) => Effect(Ok(()), Written(files, writable, path, contents))
    case Err(err) => Effect(Err(FromIo(err)), files)
  }

  /** `set_brightness` then `get_brightness` gives the level back, and the other two attributes are untouched. */
  lemma {:induction false} SetThenGetBrightness(kb: Backend, files: map<string, string>, writable: set<string>, level: uint8)
    requires kb.DistinctPaths() && kb.brightnessPath in writable
    ensures var after := WriteEffect(files, writable, kb.brightnessPath, Decimal(level)).files;
            && ReadLevel(after, kb.brightnessPath) == Ok(level)
            && ReadLevel(after, kb.maxBrightnessPath) == ReadLevel(files, kb.maxBrightnessPath)
            && ReadRgb(after, kb.colorPath) == ReadRgb(files, kb.colorPath)
  {
    LevelRoundTrip(level, "", "");
    assert "" + Decimal(level) + "" == Decimal(level);
  }

  /** `set_rgb` then `get_rgb` gives the colour back, and the two level attributes are untouched. */
  lemma {:induction false} SetThenGetRgb(kb: Backend, files: map<string, string>, writable: set<string>, c: Rgb)
    requires kb.DistinctPaths() && kb.colorPath in writable
    ensures var after := WriteEffect(files, writable, kb.colorPath, FormatRgb(c)).files;
            && ReadRgb(after, kb.colorPath) == Ok(c)
            && ReadLevel(after, kb.brightnessPath) == ReadLevel(files, kb.brightnessPath)
            && ReadLevel(after, kb.maxBrightnessPath) == ReadLevel(files, kb.maxBrightnessPath)
  {
    var after := WriteEffect(files, writable, kb.colorPath, FormatRgb(c)).files;
    assert Read(after, kb.colorPath) == StdIo.Ok(FormatRgb(c));
    FormattedRgbParses(c);
  }

  /** The text `set_rgb` writes parses back to the colour. */
  lemma {:induction false} FormattedRgbParses(c: Rgb)
    ensures ParseRgb(FormatRgb(c)) == Ok(c)
  {
    RgbRoundTrip(c, "", "");
    assert "" + FormatRgb(c) + "" == FormatRgb(c);
  }

  // ---------------------------------------------------------------- one driver, two path sets

  /** The attribute at `p1` in `f1` looks exactly like the one at `p2` in `f2`. */
  predicate SameFile(f1: map<string, string>, p1: string, f2: map<string, string>, p2: string) {
    (p1 in f1 <==> p2 in f2) && (p1 in f1 ==> f1[p1] == f2[p2])
  }

  /** Backend `a` over `f1` sees the same three attributes as backend `b` over `f2`. */
  predicate SameAttributes(f1: map<string, string>, a: Backend, f2: map<string, string>, b: Backend) {
    && SameFile(f1, a.brightnessPath, f2, b.brightnessPath)
    && SameFile(f1, a.maxBrightnessPath, f2, b.maxBrightnessPath)
    && SameFile(f1, a.colorPath, f2, b.colorPath)
  }

  /**
   * The drivers differ only in their paths: given corresponding files, two backends read
   * the same values, and the same write returns the same result, error included, and keeps the files corresponding.
   */
  lemma {:induction false} BackendsAgreeUnderRenaming(
    f1: map<string, string>, w1: set<string>, a: Backend,
    f2: map<string, string>, w2: set<string>, b: Backend,
    level: uint8, c: Rgb)
    requires a.DistinctPaths() && b.DistinctPaths() && SameAttributes(f1, a, f2, b)
    requires a.brightnessPath in w1 <==> b.brightnessPath in w2
    requires a.colorPath in w1 <==> b.colorPath in w2
    ensures ReadLevel(f1, a.brightnessPath) == ReadLevel(f2, b.brightnessPath)
    ensures ReadLevel(f1, a.maxBrightnessPath) == ReadLevel(f2, b.maxBrightnessPath)
    ensures ReadRgb(f1, a.colorPath) == ReadRgb(f2, b.colorPath)
    ensures var e1 := WriteEffect(f1, w1, a.brightnessPath, Decimal(level));
            var e2 := WriteEffect(f2, w2, b.brightnessPath, Decimal(level));
            e1.result == e2.result && SameAttributes(e1.files, a, e2.files, b)
    ensures var e1 := WriteEffect(f1, w1, a.colorPath, FormatRgb(c));
            var e2 := WriteEffect(f2, w2, b.colorPath, FormatRgb(c));
            e1.result == e2.result && SameAttributes(e1.files, a, e2.files, b)
  {
  }

  // ---------------------------------------------------------------- the driver operations

  method ReadLevelFile(fs: FileSystem, path: string) returns (r: Result<uint8>)
    ensures r == ReadLevel(fs.files, path)
  {
    var content := fs.ReadToString(path);
    match content {
      case Err(e) => r := Err(FromIo(e));
      case Ok(text) => r := ParseLevel(text);
    }
  }

  method GetBrightness(kb: Backend, fs: FileSystem) returns (r: Result<uint8>)
    ensures r == ReadLevel(fs.files, kb.brightnessPath)
  {
    r := ReadLevelFile(fs, kb.brightnessPath);
  }

  method GetMaxBrightness(kb: Backend, fs: FileSystem) returns (r: Result<uint8>)
    ensures r == ReadLevel(fs.files, kb.maxBrightnessPath)
  {
    r := ReadLevelFile(fs, kb.maxBrightnessPath);
  }

  method SetBrightness(kb: Backend, fs: FileSystem, level: uint8) returns (r: Result<()>)
    modifies fs
    ensures Effect(r, fs.files) == WriteEffect(old(fs.files), fs.writable, kb.brightnessPath, Decimal(level))
  {
    var written := fs.Write(kb.brightnessPath, Decimal(level));
    if written.Err? {
      return Err(FromIo(written.error));
    }
    r := Ok(());
  }

  method GetRgb(kb: Backend, fs: FileSystem) returns (r: Result<Rgb>)
    ensures r == ReadRgb(fs.files, kb.colorPath)
  {
    var content := fs.ReadToString(kb.colorPath);
    match content {
      case Err(e) => r := Err(FromIo(e));
      case Ok(text) => r := ParseRgb(text);
    }
  }

  method SetRgb(kb: Backend, fs: FileSystem, color: Rgb) returns (r: Result<()>)
    modifies fs
    ensures Effect(r, fs.files) == WriteEffect(old(fs.files), fs.writable, kb.colorPath, FormatRgb(color))
  {
    var written := fs.Write(kb.colorPath, FormatRgb(color));
    if written.Err? {
      return Err(FromIo(written.error));
    }
    r := Ok(());
  }
}
