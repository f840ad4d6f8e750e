/**
 * The data-input page: the area named in the URL is resolved against the
 * configured areas ignoring letter case; no area shows the selector, an
 * unknown one the not-found message.
 */
module InputLayout {
  import opened Common
  import opened Config

  /** Lower-casing of one character; the configured area names are plain ASCII. */
  function LowerChar(c: char): (r: char)
    ensures 'A' <= c <= 'Z' ==> r as int == c as int + 32
    ensures !('A' <= c <= 'Z') ==> r == c
    ensures !('A' <= r <= 'Z')
  {
    if 'A' <= c <= 'Z' then (c as int + 32) as char else c
  }

  /** `toLowerCase`, character by character. */
  function ToLower(s: string): (r: string)
    ensures |r| == |s| && forall i :: 0 <= i < |s| ==> r[i] == LowerChar(s[i])
  {
    seq(|s|, i requires 0 <= i < |s| => LowerChar(s[i]))
  }

  /** Lower-casing twice is lower-casing once. */
  lemma ToLowerIdempotent(s: string)
    ensures ToLower(ToLower(s)) == ToLower(s)
  {
    var once := ToLower(s);
    forall i | 0 <= i < |s|
      ensures ToLower(once)[i] == once[i]
    {
      assert !('A' <= once[i] <= 'Z');
    }
  }

  /** The path segment of an area's selector link. */
  function Slug(a: AreaConfig): string {
    ToLower(AreaName(a.name))
  }

  /** The link segments of the areas, in configuration order. */
  function Slugs(areas: seq<AreaConfig>): (keys: seq<string>)
    ensures |keys| == |areas| && forall i :: 0 <= i < |areas| ==> keys[i] == Slug(areas[i])
  {
    seq(|areas|, i requires 0 <= i < |areas| => Slug(areas[i]))
  }

  /** The position of the first occurrence of `key`, if any. */
  function IndexOf(keys: seq<string>, key: string): (r: Option<nat>)
    ensures r.None? <==> key !in keys
    ensures r.Some? ==> r.value < |keys| && keys[r.value] == key
    ensures r.Some? ==> forall j :: 0 <= j < r.value ==> keys[j] != key
  {
    if keys == [] then None
    else if keys[0] == key then Some(0)
    else
      assert forall i :: 1 <= i < |keys| ==> keys[i] == keys[1..][i - 1];
      assert keys == [keys[0]] + keys[1..];
      match IndexOf(keys[1..], key)
      case None => None
      case Some(i) => Some(i + 1)
  }

  /** Among distinct keys, each key is found at its own position. */
  lemma IndexOfOwnKey(keys: seq<string>, i: nat)
    requires i < |keys|
    requires forall j, k :: 0 <= j < k < |keys| ==> keys[j] != keys[k]
    ensures IndexOf(keys, keys[i]) == Some(i)
  {
  }

  /**
   * `kpiAreas.find(...)`, as the position of the first area whose lower-cased
   * name is `key` (the lower-cased parameter).
   */
  function FindArea(areas: seq<AreaConfig>, key: string): (r: Option<nat>)
    ensures r.None? <==> forall i :: 0 <= i < |areas| ==> Slug(areas[i]) != key
    ensures r.Some? ==> r.value < |areas| && Slug(areas[r.value]) == key
    ensures r.Some? ==> forall j :: 0 <= j < r.value ==> Slug(areas[j]) != key
  {
    IndexOf(Slugs(areas), key)
  }

  /** What the page shows. */
  datatype View = Selector | NotFound | Entry(config: AreaConfig)

  /** An absent or empty parameter shows the selector; otherwise the lookup decides. */
  function Resolve(area: Option<string>): (v: View)
    ensures area.None? || area == Some("") <==> v == Selector
    ensures v.Entry? ==> v.config in KpiAreas && Slug(v.config) == ToLower(area.value)
    ensures v == NotFound <==> area.Some? && area.value != "" && forall i :: 0 <= i < |KpiAreas| ==> Slug(KpiAreas[i]) != ToLower(area.value)
  {
    if area.None? || area.value == "" then Selector
    else
      match FindArea(KpiAreas, ToLower(area.value))
      case None => NotFound
      case Some(i) => Entry(KpiAreas[i])
  }

  /** The letter case of the parameter never matters. */
  lemma ResolveIgnoresCase(param: string)
    ensures Resolve(Some(param)) == Resolve(Some(ToLower(param)))
  {
    ToLowerIdempotent(param);
  }

  /** The areas' links are pairwise distinct. */
  lemma SlugsDistinct(i: nat, j: nat)
    requires i < j < |KpiAreas|
    ensures Slug(KpiAreas[i]) != Slug(KpiAreas[j])
  {
    assert Slug(KpiAreas[i])[0] != Slug(KpiAreas[j])[0];
  }

  /** Following the selector's link of an area opens the entry page of that same area. */
  lemma LinkRoundTrip(i: nat)
    requires i < |KpiAreas|
    ensures Resolve(Some(Slug(KpiAreas[i]))) == Entry(KpiAreas[i])
  {
    var name := AreaName(KpiAreas[i].name);
    ToLowerIdempotent(name);
    assert |Slug(KpiAreas[i])| == |name| > 0;
    var keys := Slugs(KpiAreas);
    forall j, k | 0 <= j < k < |keys|
      ensures keys[j] != keys[k]
    {
      SlugsDistinct(j, k);
    }
    IndexOfOwnKey(keys, i);
  }
}
