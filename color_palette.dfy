/** The status colour palette (src/utils/colorPalette.ts): twelve colours, looked up by id. */
module ColorPalette {
  import opened Types
  import Seqs

  datatype ColorConfig = ColorConfig(id: string, name: string, cssClass: string, hexValue: string,
                                     textColor: string)

  /** `STATUS_COLOR_PALETTE`. */
  function Palette(): seq<ColorConfig>
  {
    [ ColorConfig("color-1", "Terracotta", "status-color-1", "#d4764f", "#ffffff"),
      ColorConfig("color-2", "Sage", "status-color-2", "#8a9a7b", "#ffffff"),
      ColorConfig("color-3", "Golden Sand", "status-color-3", "#e8c68f", "#2d2520"),
      ColorConfig("color-4", "Deep Earth", "status-color-4", "#4a3f35", "#ffffff"),
      ColorConfig("color-5", "Rust", "status-color-5", "#b85d38", "#ffffff"),
      ColorConfig("color-6", "Olive", "status-color-6", "#6b7a5d", "#ffffff"),
      ColorConfig("color-7", "Warm Amber", "status-color-7", "#d89b5a", "#2d2520"),
      ColorConfig("color-8", "Forest Moss", "status-color-8", "#4d5c3e", "#ffffff"),
      ColorConfig("color-9", "Clay", "status-color-9", "#a67c52", "#ffffff"),
      ColorConfig("color-10", "Stone", "status-color-10", "#7a7165", "#ffffff"),
      ColorConfig("color-11", "Soft Cream", "status-color-11", "#c9b896", "#2d2520"),
      ColorConfig("color-12", "Warm Brown", "status-color-12", "#6b5444", "#ffffff") ]
  }

  function HasColorId(colorId: string): ColorConfig -> bool
  {
    (c: ColorConfig) => c.id == colorId
  }

  /** `getColorById`: the palette entry with the id, or none. */
  function GetColorById(colorId: string): (r: Option<ColorConfig>)
    ensures r.Some? ==> r.value in Palette() && r.value.id == colorId
    ensures r.None? <==> forall i :: 0 <= i < |Palette()| ==> Palette()[i].id != colorId
  {
    Seqs.Find(Palette(), HasColorId(colorId))
  }

  /** `getDefaultColor`: the first entry. */
  function GetDefaultColor(): (r: ColorConfig)
    ensures r == Palette()[0]
  {
    Palette()[0]
  }

  /** The default colour is Terracotta, and looking up its id finds it. */
  lemma DefaultColorFound()
    ensures GetDefaultColor().name == "Terracotta"
    ensures GetColorById(GetDefaultColor().id) == Some(GetDefaultColor())
  {
  }

  /** The palette has twelve entries and no two share an id: ids of the first nine differ
      in their seventh character, the last three are one character longer and differ in
      their eighth. */
  lemma PaletteIdsDistinct()
    ensures |Palette()| == 12
    ensures forall i, j :: 0 <= i < j < |Palette()| ==> Palette()[i].id != Palette()[j].id
  {
    var p := Palette();
    forall i, j | 0 <= i < j < |p| ensures p[i].id != p[j].id {
      if j < 9 {
        assert p[i].id[6] != p[j].id[6];
      } else if i < 9 {
        assert |p[i].id| != |p[j].id|;
      } else {
        assert p[i].id[7] != p[j].id[7];
      }
    }
  }

  /** Looking up the id of any entry finds that entry. */
  lemma FoundAt(k: int, colorId: string)
    requires 0 <= k < |Palette()| && Palette()[k].id == colorId
    ensures GetColorById(colorId) == Some(Palette()[k])
  {
    PaletteIdsDistinct();
    Seqs.FindFirst(Palette(), HasColorId(colorId), k);
  }
}
