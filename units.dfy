/** `unitTranslation.ts`: a unit's label under `t`, with the raw unit when no translation exists. */
module UnitTranslation {
  import opened I18nConfig
  import opened Wrappers
  import opened Translation

  /** `baseUnits`, in display order. */
  const BaseUnits: seq<string> := ["pcs", "kg", "g", "L", "ml", "bunch", "pack", "box", "bottle", "can"]

  function UnitKey(unit: string): string {
    "units." + unit
  }

  /** `translateUnit`: the translation of `units.<unit>`, unless `t` handed the key back. */
  function TranslateUnit(unit: string, t: string -> string): (r: string)
    ensures r == unit || r == t(UnitKey(unit))
    ensures r == unit <== t(UnitKey(unit)) == UnitKey(unit)
    ensures r == t(UnitKey(unit)) <== t(UnitKey(unit)) != UnitKey(unit)
  {
    var translated := t(UnitKey(unit));
    if translated == UnitKey(unit) then unit else translated
  }

  /** Under the provider's `t`, a unit that neither the active nor the English catalog
      translates is shown as itself. */
  lemma TranslateUnitMissing(c: Catalogs, l: Locale, unit: string)
    requires ResolveText(c.For(l), UnitKey(unit)).None? && ResolveText(c.en, UnitKey(unit)).None?
    ensures TranslateUnit(unit, k => Translate(c, l, k, None)) == unit
  {
  }

  /** Under the provider's `t`, a translated unit is shown as its translation, except for the
      case where the translation text is the key itself. */
  lemma TranslateUnitFound(c: Catalogs, l: Locale, unit: string)
    requires ResolveText(c.For(l), UnitKey(unit)).Some?
    requires ResolveText(c.For(l), UnitKey(unit)).value != UnitKey(unit)
    ensures TranslateUnit(unit, k => Translate(c, l, k, None)) == ResolveText(c.For(l), UnitKey(unit)).value
  {
  }

  /** One entry of `getAvailableUnits`. */
  datatype UnitOption = UnitOption(value: string, labelText: string, displayName: string)

  function OptionFor(unit: string, t: string -> string): UnitOption {
    UnitOption(unit, TranslateUnit(unit, t), TranslateUnit(unit, t) + " (" + unit + ")")
  }

  /** `getAvailableUnits`: every base unit, in order, with its label and `label (unit)`. */
  function GetAvailableUnits(t: string -> string): (r: seq<UnitOption>)
    ensures |r| == |BaseUnits|
    ensures forall i :: 0 <= i < |r| ==> r[i].value == BaseUnits[i]
    ensures forall i :: 0 <= i < |r| ==> r[i].labelText == TranslateUnit(BaseUnits[i], t)
    ensures forall i :: 0 <= i < |r| ==> r[i].displayName == r[i].labelText + " (" + r[i].value + ")"
  {
    seq(|BaseUnits|, i requires 0 <= i < |BaseUnits| => OptionFor(BaseUnits[i], t))
  }

  /** The option values are the ten distinct base units. */
  lemma AvailableUnitValuesDistinct(t: string -> string)
    ensures forall i, j :: 0 <= i < j < |GetAvailableUnits(t)| ==>
              GetAvailableUnits(t)[i].value != GetAvailableUnits(t)[j].value
  {
    var r := GetAvailableUnits(t);
    BaseUnitsDistinct();
    forall i, j | 0 <= i < j < |r|
      ensures r[i].value != r[j].value
    {
      assert r[i].value == BaseUnits[i] && r[j].value == BaseUnits[j];
    }
  }

  /** No two base units share both their first letter and their length. */
  lemma BaseUnitsDistinct()
    ensures forall i, j :: 0 <= i < j < |BaseUnits| ==> BaseUnits[i] != BaseUnits[j]
  {
    var firsts := ['p', 'k', 'g', 'L', 'm', 'b', 'p', 'b', 'b', 'c'];
    var lengths := [3, 2, 1, 1, 2, 5, 4, 3, 6, 3];
    forall i | 0 <= i < |BaseUnits|
      ensures |BaseUnits[i]| == lengths[i] && BaseUnits[i][0] == firsts[i]
    {
    }
    forall i, j | 0 <= i < j < |BaseUnits|
      ensures BaseUnits[i] != BaseUnits[j]
    {
      assert firsts[i] != firsts[j] || lengths[i] != lengths[j];
    }
  }

  /** When `t` knows no unit at all, every option is labelled with its raw unit. */
  lemma AvailableUnitsUntranslated(t: string -> string)
    requires forall u :: u in BaseUnits ==> t(UnitKey(u)) == UnitKey(u)
    ensures forall i :: 0 <= i < |GetAvailableUnits(t)| ==>
              GetAvailableUnits(t)[i].labelText == BaseUnits[i] &&
              GetAvailableUnits(t)[i].displayName == BaseUnits[i] + " (" + BaseUnits[i] + ")"
  {
  }
}
