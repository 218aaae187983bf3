/**
 * The pricing half of the upload page (`Upload.tsx`): the price and density
 * tables, the open-top shell correction of the volume, the weight kept next
 * to the reported statistics, the price, and the page state that holds them.
 */
module Upload {
  import opened Wrappers
  import opened Geometry
  import opened MeshStats
  import opened FileNames

  /** `PRICING`: dollars per gram, by material and print quality. */
  const Pricing: map<string, map<string, real>> := map[
    "pla-petg" := map["standard" := 0.55, "fine" := 0.75],
    "asa-abs" := map["standard" := 0.65, "fine" := 0.85],
    "tpu" := map["standard" := 0.75, "fine" := 0.95],
    "nylon-cf" := map["standard" := 0.90, "fine" := 1.10]]

  /** `MATERIAL_DENSITY`: grams per cm³. */
  const MaterialDensity: map<string, real> := map[
    "pla-petg" := 1.255,
    "asa-abs" := 1.055,
    "tpu" := 1.21,
    "nylon-cf" := 1.22]

  /** The density used for a material the table does not know. */
  const FallbackDensity: real := 1.24

  /** `MATERIAL_DENSITY[material] || 1.24`. */
  function Density(material: string): (d: real)
    ensures material in MaterialDensity ==> d == MaterialDensity[material]
    ensures material !in MaterialDensity ==> d == FallbackDensity
    ensures d > 0.0
  {
    if material in MaterialDensity && MaterialDensity[material] != 0.0 then MaterialDensity[material] else FallbackDensity
  }

  function Max(x: real, y: real): real {
    if x >= y then x else y
  }

  /** The shell correction's settings: on/off, wall and bottom thickness in mm. */
  datatype Shell = Shell(useOpenShell: bool, wallThicknessMm: real, bottomThicknessMm: real)

  /** The extents of the model in mm, from its dimensions in cm. */
  function OuterMm(info: ModelInfo): Vec3 {
    Scale(10.0, info.dimensionsCm)
  }

  /** The cavity of the open-top shell: the box less two walls per side and one bottom, each extent clamped at 0. */
  function InnerMm(info: ModelInfo, shell: Shell): (inner: Vec3)
    ensures NonNegative(inner)
    ensures inner.x == Max(OuterMm(info).x - 2.0 * shell.wallThicknessMm, 0.0)
    ensures inner.y == Max(OuterMm(info).y - 2.0 * shell.wallThicknessMm, 0.0)
    ensures inner.z == Max(OuterMm(info).z - shell.bottomThicknessMm, 0.0)
  {
    var l := OuterMm(info);
    Vec3(Max(l.x - 2.0 * shell.wallThicknessMm, 0.0), Max(l.y - 2.0 * shell.wallThicknessMm, 0.0), Max(l.z - shell.bottomThicknessMm, 0.0))
  }

  function BoxVolume(v: Vec3): real {
    v.x * v.y * v.z
  }

  /**
   * `getEffectiveVolumeCm3`: the mesh volume when the correction is off;
   * otherwise the outer box less the cavity, clamped at 0, in cm³.
   */
  function EffectiveVolume(info: ModelInfo, shell: Shell): (v: real)
    ensures !shell.useOpenShell ==> v == info.volumeCm3
    ensures shell.useOpenShell ==> v >= 0.0
    ensures shell.useOpenShell ==> v * 1000.0 == Max(BoxVolume(OuterMm(info)) - BoxVolume(InnerMm(info, shell)), 0.0)
  {
    if !shell.useOpenShell then info.volumeCm3
    else
      var outerMm3 := BoxVolume(OuterMm(info));
      var innerMm3 := BoxVolume(InnerMm(info, shell));
      var shellMm3 := Max(outerMm3 - innerMm3, 0.0);
      assert shellMm3 >= 0.0;
      shellMm3 / 1000.0
  }

  lemma BoxVolumeNonNegative(v: Vec3)
    requires NonNegative(v)
    ensures BoxVolume(v) >= 0.0
  {
    assert v.x * v.y >= 0.0;
    assert (v.x * v.y) * v.z >= 0.0;
  }

  /** With the correction on, a model of non-negative extent weighs at most its solid bounding box. */
  lemma ShellAtMostBox(info: ModelInfo, shell: Shell)
    requires shell.useOpenShell && NonNegative(info.dimensionsCm)
    ensures 0.0 <= EffectiveVolume(info, shell) <= BoxVolume(OuterMm(info)) / 1000.0
  {
    BoxVolumeNonNegative(OuterMm(info));
    BoxVolumeNonNegative(InnerMm(info, shell));
  }

  /** With zero wall and bottom the cavity is the whole box, so nothing is left. */
  lemma ZeroThicknessIsEmpty(info: ModelInfo)
    requires NonNegative(info.dimensionsCm)
    ensures EffectiveVolume(info, Shell(true, 0.0, 0.0)) == 0.0
  {
    var shell := Shell(true, 0.0, 0.0);
    assert InnerMm(info, shell) == OuterMm(info);
  }

  /** Walls as thick as half the footprint leave no cavity: the whole box is printed. */
  lemma ThickWallsAreSolid(info: ModelInfo, shell: Shell)
    requires shell.useOpenShell && NonNegative(info.dimensionsCm)
    requires 2.0 * shell.wallThicknessMm >= OuterMm(info).x
    ensures EffectiveVolume(info, shell) == BoxVolume(OuterMm(info)) / 1000.0
  {
    var inner := InnerMm(info, shell);
    assert inner.x == 0.0;
    assert BoxVolume(inner) == 0.0;
    BoxVolumeNonNegative(OuterMm(info));
  }

  /** A 100 mm cube with 2 mm walls and bottom: 10⁶ − 96·96·98 mm³ = 96.832 cm³. */
  lemma CubeShellExample(info: ModelInfo)
    requires info.dimensionsCm == Vec3(10.0, 10.0, 10.0)
    ensures EffectiveVolume(info, Shell(true, 2.0, 2.0)) == 96.832
  {
    assert OuterMm(info) == Vec3(100.0, 100.0, 100.0);
    assert InnerMm(info, Shell(true, 2.0, 2.0)) == Vec3(96.0, 96.0, 98.0);
  }

  lemma ProductNonNegative(a: real, b: real)
    ensures a >= 0.0 && b >= 0.0 ==> a * b >= 0.0
  {
    if a >= 0.0 && b >= 0.0 {
      assert a * b >= 0.0;
    }
  }

  /** weight = effective volume × density, in grams. */
  function Weight(info: ModelInfo, density: real, shell: Shell): real {
    EffectiveVolume(info, shell) * density
  }

  /** Uncorrected, the weight is the mesh volume times the density; corrected, it is never negative. */
  lemma WeightCases(info: ModelInfo, density: real, shell: Shell)
    ensures !shell.useOpenShell ==> Weight(info, density, shell) == info.volumeCm3 * density
    ensures shell.useOpenShell && density >= 0.0 ==> Weight(info, density, shell) >= 0.0
  {
    var v := EffectiveVolume(info, shell);
    assert Weight(info, density, shell) == v * density;
    if shell.useOpenShell {
      assert v >= 0.0;
      ProductNonNegative(v, density);
    }
  }

  /** The weight as `handleModelParsed` and the recompute effect compute it. */
  method ComputeWeight(info: ModelInfo, material: string, shell: Shell) returns (weight: real)
    ensures weight == Weight(info, Density(material), shell)
  {
    var density := Density(material);
    var vol := EffectiveVolume(info, shell);
    weight := vol * density;
  }

  /** A corrected weight is at most the solid box's weight in the material. */
  lemma WeightAtMostSolidBox(info: ModelInfo, material: string, shell: Shell)
    requires shell.useOpenShell && NonNegative(info.dimensionsCm)
    ensures Weight(info, Density(material), shell) <= BoxVolume(OuterMm(info)) / 1000.0 * Density(material)
  {
    var v, d := EffectiveVolume(info, shell), Density(material);
    ShellAtMostBox(info, shell);
    assert Weight(info, d, shell) == v * d;
    assert v * d <= BoxVolume(OuterMm(info)) / 1000.0 * d;
  }

  /** `PRICING[material][quality]`; None where the lookup yields nothing. */
  function PricePerGram(material: string, quality: string): (p: Option<real>)
    ensures p.Some? <==> material in Pricing && quality in Pricing[material]
    ensures p.Some? ==> p.value > 0.0
  {
    if material in Pricing && quality in Pricing[material] then Some(Pricing[material][quality]) else None
  }

  /** Every material the page offers has both qualities priced. */
  lemma EveryChoicePriced(material: string, quality: string)
    requires material in {"pla-petg", "asa-abs", "tpu", "nylon-cf"} && quality in {"standard", "fine"}
    ensures PricePerGram(material, quality).Some?
  {
  }

  /** The statistics a parsed model is shown with, and its weight. */
  datatype PricedInfo = PricedInfo(stats: ModelInfo, weight: real)

  /** `calculatePrice`: 0 without a model, otherwise weight × price per gram (None for an unpriced choice). */
  function CalculatePrice(modelInfo: Option<PricedInfo>, material: string, quality: string): (price: Option<real>)
    ensures modelInfo.None? ==> price == Some(0.0)
    ensures modelInfo.Some? ==> (price.Some? <==> PricePerGram(material, quality).Some?)
    ensures modelInfo.Some? && price.Some? ==> price.value == modelInfo.value.weight * PricePerGram(material, quality).value
    ensures modelInfo.Some? && price.Some? && modelInfo.value.weight >= 0.0 ==> price.value >= 0.0
  {
    if modelInfo.None? then Some(0.0)
    else
      match PricePerGram(material, quality)
      case None => None
      case Some(perGram) => Some(modelInfo.value.weight * perGram)
  }

  /** 10 cm³ of PLA/PETG, uncorrected, at standard quality: 12.55 g at $0.55 is $6.9025. */
  lemma PlaExample(info: ModelInfo)
    requires info.volumeCm3 == 10.0
    ensures var w := Weight(info, Density("pla-petg"), Shell(false, 2.2, 2.4));
      w == 12.55 && CalculatePrice(Some(PricedInfo(info, w)), "pla-petg", "standard") == Some(6.9025)
  {
  }

  /** `parseFloat(value) || 0`: an unparsable entry (None) or 0 gives 0. */
  function ThicknessInput(parsed: Option<real>): (t: real)
    ensures parsed.Some? ==> t == parsed.value
    ensures parsed.None? ==> t == 0.0
  {
    parsed.GetOr(0.0)
  }

  /** The upload page's state. */
  class UploadPage {
    var file: Option<string>
    var material: string
    var quality: string
    var modelInfo: Option<PricedInfo>
    var useOpenShell: bool
    var wallThicknessMm: real
    var bottomThicknessMm: real

    function Settings(): Shell
      reads this
    {
      Shell(useOpenShell, wallThicknessMm, bottomThicknessMm)
    }

    /** The weight shown matches the current material and correction. */
    ghost predicate Consistent()
      reads this
    {
      modelInfo.Some? ==> modelInfo.value.weight == Weight(modelInfo.value.stats, Density(material), Settings())
    }

    constructor ()
      ensures Consistent()
      ensures file == None && modelInfo == None
      ensures material == "pla-petg" && quality == "standard"
      ensures useOpenShell && wallThicknessMm == 2.2 && bottomThicknessMm == 2.4
    {
      file := None;
      material := "pla-petg";
      quality := "standard";
      modelInfo := None;
      useOpenShell := true;
      wallThicknessMm := 2.2;
      bottomThicknessMm := 2.4;
    }

    /** The price shown. */
    function Price(): Option<real>
      reads this
    {
      CalculatePrice(modelInfo, material, quality)
    }

    /** `processFile`: the new file is kept; the previous statistics stay until the viewer reports. */
    method ProcessFile(name: string)
      modifies this
      ensures file == Some(name)
      ensures modelInfo == old(modelInfo) && material == old(material) && quality == old(quality)
      ensures Settings() == old(Settings())
    {
      file := Some(name);
    }

    /** `handleDrop`: only a name ending in ".stl" or ".obj" is taken; returns whether it was. */
    method HandleDrop(name: Option<string>) returns (accepted: bool)
      modifies this
      ensures accepted <==> name.Some? && DropAccepts(name.value)
      ensures accepted ==> file == name
      ensures !accepted ==> file == old(file)
      ensures modelInfo == old(modelInfo) && material == old(material) && quality == old(quality)
      ensures Settings() == old(Settings())
    {
      if name.Some? && DropAccepts(name.value) {
        ProcessFile(name.value);
        return true;
      }
      return false;
    }

    /** `handleFileChange`: the file picker takes any chosen file. */
    method HandleFileChange(name: Option<string>)
      modifies this
      ensures name.Some? ==> file == name
      ensures name.None? ==> file == old(file)
      ensures modelInfo == old(modelInfo) && material == old(material) && quality == old(quality)
      ensures Settings() == old(Settings())
    {
      if name.Some? {
        ProcessFile(name.value);
      }
    }

    /** `handleModelParsed`: the five statistics are kept unchanged and the weight is computed from the current settings. */
    method HandleModelParsed(info: ModelInfo)
      modifies this
      ensures Consistent() && modelInfo.Some? && modelInfo.value.stats == info
      ensures file == old(file) && material == old(material) && quality == old(quality)
      ensures Settings() == old(Settings())
    {
      var weight := ComputeWeight(info, material, Settings());
      modelInfo := Some(PricedInfo(info, weight));
    }

    /** The recompute effect: only the weight is replaced. */
    method RecomputeWeight()
      modifies this
      ensures Consistent()
      ensures modelInfo.None? <==> old(modelInfo).None?
      ensures modelInfo.Some? ==> modelInfo.value.stats == old(modelInfo).value.stats
      ensures file == old(file) && material == old(material) && quality == old(quality)
      ensures Settings() == old(Settings())
    {
      if modelInfo.Some? {
        var weight := ComputeWeight(modelInfo.value.stats, material, Settings());
        modelInfo := Some(modelInfo.value.(weight := weight));
      }
    }

    /** Choosing a material; the effect then recomputes the weight. */
    method SetMaterial(m: string)
      modifies this
      ensures Consistent() && material == m
      ensures modelInfo.None? <==> old(modelInfo).None?
      ensures modelInfo.Some? ==> modelInfo.value.stats == old(modelInfo).value.stats
      ensures file == old(file) && quality == old(quality) && Settings() == old(Settings())
    {
      material := m;
      RecomputeWeight();
    }

    /** Choosing a quality changes the price, not the weight. */
    method SetQuality(q: string)
      modifies this
      ensures quality == q
      ensures modelInfo == old(modelInfo) && file == old(file) && material == old(material)
      ensures Settings() == old(Settings())
      ensures old(Consistent()) ==> Consistent()
    {
      quality := q;
    }

    /** The correction switch; the effect then recomputes the weight. */
    method SetUseOpenShell(on: bool)
      modifies this
      ensures Consistent() && Settings() == old(Settings()).(useOpenShell := on)
      ensures modelInfo.None? <==> old(modelInfo).None?
      ensures modelInfo.Some? ==> modelInfo.value.stats == old(modelInfo).value.stats
      ensures file == old(file) && material == old(material) && quality == old(quality)
    {
      useOpenShell := on;
      RecomputeWeight();
    }

    /** The wall-thickness input, as `parseFloat` read it; the effect then recomputes the weight. */
    method SetWallThickness(parsed: Option<real>)
      modifies this
      ensures Consistent() && Settings() == old(Settings()).(wallThicknessMm := ThicknessInput(parsed))
      ensures modelInfo.None? <==> old(modelInfo).None?
      ensures modelInfo.Some? ==> modelInfo.value.stats == old(modelInfo).value.stats
      ensures file == old(file) && material == old(material) && quality == old(quality)
    {
      wallThicknessMm := ThicknessInput(parsed);
      RecomputeWeight();
    }

    /** The bottom-thickness input, as `parseFloat` read it; the effect then recomputes the weight. */
    method SetBottomThickness(parsed: Option<real>)
      modifies this
      ensures Consistent() && Settings() == old(Settings()).(bottomThicknessMm := ThicknessInput(parsed))
      ensures modelInfo.None? <==> old(modelInfo).None?
      ensures modelInfo.Some? ==> modelInfo.value.stats == old(modelInfo).value.stats
      ensures file == old(file) && material == old(material) && quality == old(quality)
    {
      bottomThicknessMm := ThicknessInput(parsed);
      RecomputeWeight();
    }

    /** The Remove button: no file and no model, so the price is 0. */
    method Remove()
      modifies this
      ensures file == None && modelInfo == None && Price() == Some(0.0)
      ensures Consistent()
      ensures material == old(material) && quality == old(quality) && Settings() == old(Settings())
    {
      file := None;
      modelInfo := None;
    }
  }
}
