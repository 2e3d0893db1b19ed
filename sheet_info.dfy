/**
 * The sprite-sheet metadata record the canvas components build once at start-up
 * (src/utils/generateSpriteSheetInformations.ts). The loaded image is an opaque
 * handle that only remembers its URL.
 */
module SheetInfo {
  import opened Wrappers

  /** An image element whose `src` has been set; loading and pixels are not modelled. */
  datatype Image = Image(src: string)

  /** The call's parameter object; `None` is an omitted optional field. */
  datatype Params = Params(
    url: string,
    spriteWidth: real,
    spriteHeight: real,
    totalCols: Option<int>,
    totalRows: Option<int>,
    spawnInterval: Option<real>,
    scale: Option<real>)

  /** The returned record. */
  datatype Info = Info(
    spritesheet: Image,
    spriteWidth: real,
    spriteHeight: real,
    totalCols: int,
    totalRows: int,
    totalFrames: int,
    spawnInterval: real,
    scale: real)

  const DefaultCols := 0
  const DefaultRows := 0
  const DefaultSpawnInterval := 1000.0
  const DefaultScale := 1.0

  /** `generateSpriteSheetInformations`: fill in the defaults and count the frames. */
  function Generate(p: Params): Info {
    var cols := p.totalCols.GetOr(DefaultCols);
    var rows := p.totalRows.GetOr(DefaultRows);
    Info(Image(p.url), p.spriteWidth, p.spriteHeight, cols, rows, cols * rows,
         p.spawnInterval.GetOr(DefaultSpawnInterval), p.scale.GetOr(DefaultScale))
  }

  /** Everything passed in comes back unchanged, the image points at the URL, and the frame count is the grid size. */
  lemma GenerateKeepsParameters(p: Params)
    ensures var info := Generate(p);
      && info.spritesheet.src == p.url
      && info.spriteWidth == p.spriteWidth && info.spriteHeight == p.spriteHeight
      && (p.totalCols.Some? ==> info.totalCols == p.totalCols.value)
      && (p.totalRows.Some? ==> info.totalRows == p.totalRows.value)
      && (p.spawnInterval.Some? ==> info.spawnInterval == p.spawnInterval.value)
      && (p.scale.Some? ==> info.scale == p.scale.value)
      && info.totalFrames == info.totalCols * info.totalRows
  {
  }

  /** Omitted fields take the defaults 0 columns, 0 rows, a 1000 ms interval and scale 1. */
  lemma GenerateDefaults(p: Params)
    ensures var info := Generate(p);
      && (p.totalCols.None? ==> info.totalCols == 0)
      && (p.totalRows.None? ==> info.totalRows == 0)
      && (p.spawnInterval.None? ==> info.spawnInterval == 1000.0)
      && (p.scale.None? ==> info.scale == 1.0)
  {
  }

  /**
   * A sheet whose column or row count is left out has no frames, so a caller
   * that takes `% totalFrames` must pass both counts; with non-negative counts
   * there are frames exactly when both counts are positive.
   */
  lemma {:induction false} FramesExistIffBothCounts(p: Params)
    requires p.totalCols.Some? ==> p.totalCols.value >= 0
    requires p.totalRows.Some? ==> p.totalRows.value >= 0
    ensures Generate(p).totalFrames >= 0
    ensures Generate(p).totalFrames > 0 <==> p.totalCols.Some? && p.totalRows.Some? && p.totalCols.value > 0 && p.totalRows.value > 0
  {
    var info := Generate(p);
    if info.totalCols > 0 && info.totalRows > 0 {
      assert info.totalCols * info.totalRows > 0;
    }
  }
}
