/**
 * The service's public API: find the driver for this machine, then hand each request
 * to it. Discovery runs again on every call; nothing is cached.
 */
module Service {
  import opened Prelude
  import StdIo
  import opened Errors
  import opened Attributes
  import opened Colors
  import Text
  import Drivers
  import Brightness

  // ---------------------------------------------------------------- discovery

  /**
   * `get_keyboard`: the vendor driver when its brightness attribute exists, otherwise the
   * generic LED driver when its brightness attribute exists, otherwise none.
   */
  function GetKeyboard(files: map<string, string>): (r: Option<Drivers.Backend>)
    ensures Drivers.TuxedoKeyboard.brightnessPath in files ==> r == Some(Drivers.TuxedoKeyboard)
    ensures Drivers.TuxedoKeyboard.brightnessPath !in files && Drivers.SysfsKeyboard.brightnessPath in files ==>
              r == Some(Drivers.SysfsKeyboard)
    ensures r.None? <==>
              Drivers.TuxedoKeyboard.brightnessPath !in files && Drivers.SysfsKeyboard.brightnessPath !in files
    ensures r.Some? ==> r.value.brightnessPath in files && r.value.DistinctPaths()
  {
    Drivers.KnownBackendsDistinctPaths();
    if Drivers.TuxedoKeyboard.brightnessPath in files then Some(Drivers.TuxedoKeyboard)
    else if Drivers.SysfsKeyboard.brightnessPath in files then Some(Drivers.SysfsKeyboard)
    else None
  }

  /**
   * Discovery looks only at whether the two brightness attributes exist: the maximum and
   * colour attributes, and the contents of every file, play no part.
   */
  lemma {:induction false} DiscoveryProbesOnlyBrightness(f1: map<string, string>, f2: map<string, string>)
    requires Drivers.TuxedoKeyboard.brightnessPath in f1 <==> Drivers.TuxedoKeyboard.brightnessPath in f2
    requires Drivers.SysfsKeyboard.brightnessPath in f1 <==> Drivers.SysfsKeyboard.brightnessPath in f2
    ensures GetKeyboard(f1) == GetKeyboard(f2)
  {
  }

  /** The error every facade call returns when no driver is found. */
  const NotFoundError := FromIo(StdIo.Error(StdIo.NotFound, "No supported keyboard driver found"))

  /** `get_controller`: the discovered driver, or the not-found I/O error. */
  function Controller(files: map<string, string>): (r: Result<Drivers.Backend>)
    ensures r.Err? <==> GetKeyboard(files).None?
    ensures r.Err? ==> r.error == NotFoundError && r.error.Io? && r.error.source.kind == StdIo.NotFound
    ensures r.Ok? ==> r.value == GetKeyboard(files).value
  {
    match GetKeyboard(files)
    case Some(kb) => Ok(kb)
    case None => Err(NotFoundError)
  }

  /**
   * Writing through the discovered driver never changes which driver is discovered:
   * its brightness attribute already exists, and no colour attribute is a probed path.
   */
  lemma {:induction false} WritesKeepDiscovery(files: map<string, string>, writable: set<string>, level: uint8, c: Rgb)
    requires GetKeyboard(files).Some?
    ensures var kb := GetKeyboard(files).value;
            && GetKeyboard(Drivers.WriteEffect(files, writable, kb.brightnessPath, Text.Decimal(level)).files) == Some(kb)
            && GetKeyboard(Drivers.WriteEffect(files, writable, kb.colorPath, Drivers.FormatRgb(c)).files) == Some(kb)
  {
    var kb := GetKeyboard(files).value;
    var probes := {Drivers.TuxedoKeyboard.brightnessPath, Drivers.SysfsKeyboard.brightnessPath};
    assert kb.colorPath !in probes;
    var f1 := Drivers.WriteEffect(files, writable, kb.brightnessPath, Text.Decimal(level)).files;
    var f2 := Drivers.WriteEffect(files, writable, kb.colorPath, Drivers.FormatRgb(c)).files;
    DiscoveryProbesOnlyBrightness(files, f1);
    DiscoveryProbesOnlyBrightness(files, f2);
  }

  /**
   * Through the facade, a colour set successfully is the colour read next, channel by
   * channel: the same driver is discovered again and reads back what it wrote.
   */
  lemma {:induction false} FacadeRgbRoundTrip(files: map<string, string>, writable: set<string>, c: Rgb)
    requires GetKeyboard(files).Some?
    ensures var kb := GetKeyboard(files).value;
            var e := Drivers.WriteEffect(files, writable, kb.colorPath, Drivers.FormatRgb(c));
            e.result.Ok? ==>
              && Controller(e.files) == Ok(kb)
              && Drivers.ReadRgb(e.files, kb.colorPath) == Ok(c)
  {
    var kb := GetKeyboard(files).value;
    WritesKeepDiscovery(files, writable, 0, c);
    if kb.colorPath in writable {
      Drivers.SetThenGetRgb(kb, files, writable, c);
    }
  }

  /** Through the facade, a level set successfully is the level read next. */
  lemma {:induction false} FacadeBrightnessRoundTrip(files: map<string, string>, writable: set<string>, level: uint8)
    requires GetKeyboard(files).Some?
    ensures var kb := GetKeyboard(files).value;
            var e := Drivers.WriteEffect(files, writable, kb.brightnessPath, Text.Decimal(level));
            e.result.Ok? ==>
              && Controller(e.files) == Ok(kb)
              && Drivers.ReadLevel(e.files, kb.brightnessPath) == Ok(level)
  {
    var kb := GetKeyboard(files).value;
    WritesKeepDiscovery(files, writable, level, Rgb(0, 0, 0));
    if kb.brightnessPath in writable {
      Drivers.SetThenGetBrightness(kb, files, writable, level);
    }
  }

  // ---------------------------------------------------------------- the facade

  /** `get_keyboard` as it runs: two `Path::exists` probes in priority order. */
  method DetectKeyboard(fs: FileSystem) returns (r: Option<Drivers.Backend>)
    ensures r == GetKeyboard(fs.files)
  {
    if fs.Exists(Drivers.TuxedoKeyboard.brightnessPath) {
      return Some(Drivers.TuxedoKeyboard);
    }
    if fs.Exists(Drivers.SysfsKeyboard.brightnessPath) {
      return Some(Drivers.SysfsKeyboard);
    }
    return None;
  }

  method GetController(fs: FileSystem) returns (r: Result<Drivers.Backend>)
    ensures r == Controller(fs.files)
  {
    var found := DetectKeyboard(fs);
    match found {
      case Some(kb) => r := Ok(kb);
      case None => r := Err(NotFoundError);
    }
  }

  method GetBrightness(fs: FileSystem) returns (r: Result<uint8>)
    ensures GetKeyboard(fs.files).None? ==> r == Err(NotFoundError)
    ensures GetKeyboard(fs.files).Some? ==>
              r == Drivers.ReadLevel(fs.files, GetKeyboard(fs.files).value.brightnessPath)
  {
    var kb :- GetController(fs);
    r := Drivers.GetBrightness(kb, fs);
  }

  method GetMaxBrightness(fs: FileSystem) returns (r: Result<uint8>)
    ensures GetKeyboard(fs.files).None? ==> r == Err(NotFoundError)
    ensures GetKeyboard(fs.files).Some? ==>
              r == Drivers.ReadLevel(fs.files, GetKeyboard(fs.files).value.maxBrightnessPath)
  {
    var kb :- GetController(fs);
    r := Drivers.GetMaxBrightness(kb, fs);
  }

  method SetBrightness(fs: FileSystem, level: uint8) returns (r: Result<()>)
    modifies fs
    ensures GetKeyboard(old(fs.files)).None? ==> r == Err(NotFoundError) && fs.files == old(fs.files)
    ensures GetKeyboard(old(fs.files)).Some? ==>
              Drivers.Effect(r, fs.files) ==
              Drivers.WriteEffect(old(fs.files), fs.writable, GetKeyboard(old(fs.files)).value.brightnessPath,
                                  Text.Decimal(level))
  {
    var kb :- GetController(fs);
    r := Drivers.SetBrightness(kb, fs, level);
  }

  method IncreaseBrightness(fs: FileSystem, step: uint8) returns (r: Result<()>)
    modifies fs
    ensures GetKeyboard(old(fs.files)).None? ==> r == Err(NotFoundError) && fs.files == old(fs.files)
    ensures GetKeyboard(old(fs.files)).Some? ==>
              Drivers.Effect(r, fs.files) ==
              Brightness.IncreaseEffect(GetKeyboard(old(fs.files)).value, old(fs.files), fs.writable, step)
  {
    var kb :- GetController(fs);
    r := Brightness.IncreaseBrightness(kb, fs, step);
  }

  method DecreaseBrightness(fs: FileSystem, step: uint8) returns (r: Result<()>)
    modifies fs
    ensures GetKeyboard(old(fs.files)).None? ==> r == Err(NotFoundError) && fs.files == old(fs.files)
    ensures GetKeyboard(old(fs.files)).Some? ==>
              Drivers.Effect(r, fs.files) ==
              Brightness.DecreaseEffect(GetKeyboard(old(fs.files)).value, old(fs.files), fs.writable, step)
  {
    var kb :- GetController(fs);
    r := Brightness.DecreaseBrightness(kb, fs, step);
  }

  method GetBrightnessInfo(fs: FileSystem) returns (r: Result<Brightness.BrightnessInfo>)
    ensures GetKeyboard(fs.files).None? ==> r == Err(NotFoundError)
    ensures GetKeyboard(fs.files).Some? ==> r == Brightness.ReadInfo(GetKeyboard(fs.files).value, fs.files)
  {
    var kb :- GetController(fs);
    r := Brightness.GetBrightnessInfo(kb, fs);
  }

  /** `get_rgb_color`: the colour as an `(r, g, b)` tuple, in that order. */
  method GetRgbColor(fs: FileSystem) returns (r: Result<(uint8, uint8, uint8)>)
    ensures GetKeyboard(fs.files).None? ==> r == Err(NotFoundError)
    ensures GetKeyboard(fs.files).Some? ==>
              var color := Drivers.ReadRgb(fs.files, GetKeyboard(fs.files).value.colorPath);
              && (color.Err? ==> r == Err(color.error))
              && (color.Ok? ==> r == Ok((color.value.r, color.value.g, color.value.b)))
  {
    var kb :- GetController(fs);
    var rgb :- Drivers.GetRgb(kb, fs);
    r := Ok((rgb.r, rgb.g, rgb.b));
  }

  /** `set_rgb_color(r, g, b)`: writes `Rgb { r, g, b }` through the discovered driver. */
  method SetRgbColor(fs: FileSystem, red: uint8, green: uint8, blue: uint8) returns (r: Result<()>)
    modifies fs
    ensures GetKeyboard(old(fs.files)).None? ==> r == Err(NotFoundError) && fs.files == old(fs.files)
    ensures GetKeyboard(old(fs.files)).Some? ==>
              Drivers.Effect(r, fs.files) ==
              Drivers.WriteEffect(old(fs.files), fs.writable, GetKeyboard(old(fs.files)).value.colorPath,
                                  Drivers.FormatRgb(Rgb(red, green, blue)))
  {
    var kb :- GetController(fs);
    r := Drivers.SetRgb(kb, fs, Rgb(red, green, blue));
  }
}
