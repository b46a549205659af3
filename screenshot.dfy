/** Screenshots (src/utils/screenshot.js): a running count, the directory
    read once from the configuration and cached, and the file name each
    screenshot is written to. */
module Screenshot {
  import opened Common
  import opened Strings

  /** The file a screenshot with index `n` is written to, inside the
      directory `path`. */
  function FileName(path: string, n: int): (f: string)
    ensures |f| > |path| + 16 && f[..|path| + 12] == path + "/screenshot-"
    ensures f[|path| + 12..|f| - 4] == IntToDecimal(n) && f[|f| - 4..] == ".png"
  {
    path + "/screenshot-" + IntToDecimal(n) + ".png"
  }

  /** Within one directory, different indices name different files; as each
      successful `takeScreenshot` raises the count by one, successive
      screenshots never overwrite one another. */
  lemma FileNameInjective(path: string, a: int, b: int)
    requires FileName(path, a) == FileName(path, b)
    ensures a == b
  {
    var prefix := path + "/screenshot-";
    var da, db := IntToDecimal(a), IntToDecimal(b);
    assert FileName(path, a) == prefix + (da + ".png");
    assert FileName(path, b) == prefix + (db + ".png");
    assert da + ".png" == FileName(path, a)[|prefix|..];
    assert db + ".png" == FileName(path, b)[|prefix|..];
    assert da == (da + ".png")[..|da + ".png"| - 4];
    assert db == (db + ".png")[..|db + ".png"| - 4];
    IntToDecimalInjective(a, b);
  }

  /** The module state: `totalScreenshots` and the cached `path`. */
  class Screenshots {
    var total: int
    var path: Option<string>

    /** A cached directory is truthy: it is only stored when it is. */
    predicate Valid()
      reads this
    {
      path.Some? ==> path.value != ""
    }

    constructor ()
      ensures Valid() && total == 0 && path == None
    {
      total := 0;
      path := None;
    }

    /** `count(newCount)`: a number (zero included) replaces the count; no
        argument leaves it. The count is returned. */
    method Count(newCount: Option<int>) returns (n: int)
      modifies this
      ensures total == (if newCount.Some? then newCount.value else old(total))
      ensures n == total && path == old(path)
    {
      if newCount.Some? {
        total := newCount.value;
      }
      n := total;
    }

    /** `path()`: the cached directory, else the configured one, which is
        then cached; without a truthy `screenshotPath` it fails and nothing
        is cached. */
    method Path(config: Config) returns (r: Result<string>)
      requires Valid()
      modifies this
      ensures Valid() && total == old(total)
      ensures old(path).Some? ==> r == Ok(old(path).value) && path == old(path)
      ensures old(path).None? && !Truthy(config.screenshotPath) ==> r == Err(NoScreenshotPath) && path == None
      ensures old(path).None? && Truthy(config.screenshotPath) ==>
        r == Ok(config.screenshotPath.value) && path == config.screenshotPath
    {
      if path.Some? {
        return Ok(path.value);
      }
      if !Truthy(config.screenshotPath) {
        return Err(NoScreenshotPath);
      }
      path := config.screenshotPath;
      r := Ok(path.value);
    }

    /** `takeScreenshot()`: once the directory is known and the browser has
        delivered the image, the count is incremented and the new count
        names the file. `captured` is whether the browser delivered it. */
    method TakeScreenshot(config: Config, captured: bool) returns (r: Result<string>)
      requires Valid()
      modifies this
      ensures Valid()
      ensures path == if old(path).Some? then old(path) else if Truthy(config.screenshotPath) then config.screenshotPath else None
      ensures r.Ok? <==> path.Some? && captured
      ensures r.Ok? ==> total == old(total) + 1 && r.value == FileName(path.value, total)
      ensures r.Err? ==> total == old(total)
      ensures path.None? ==> r == Err(NoScreenshotPath)
      ensures path.Some? && !captured ==> r == Err(DriverFailure)
    {
      var dir := Path(config);
      if dir.Err? {
        return Err(dir.error);
      }
      if !captured {
        return Err(DriverFailure);
      }
      total := total + 1;
      r := Ok(FileName(dir.value, total));
    }
  }
}
