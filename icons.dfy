/**
 * The monster icon catalogue: which file names of the asset folder listing
 * become icons, and the display name derived from each file name.
 */
module Icons {
  import opened Wrappers
  import Identity

  datatype Icon = Icon(fileName: string, displayName: string)

  predicate EndsWith(s: string, suffix: string) {
    |suffix| <= |s| && s[|s| - |suffix|..] == suffix
  }

  const ImageExtension: string := ".webp"
  /** The suffix stripped from display names, in lower case (it is matched ignoring case). */
  const IconSuffix: string := "_icon.webp"

  /** A listed file is an icon when its lower-cased name ends with ".webp". */
  predicate IsImage(fileName: string) {
    EndsWith(Identity.Lower(fileName), ImageExtension)
  }

  /** The file name without a trailing "_Icon.webp" in any letter case. */
  function StripIconSuffix(fileName: string): (base: string)
    ensures base <= fileName
    ensures EndsWith(Identity.Lower(fileName), IconSuffix) ==> |base| == |fileName| - |IconSuffix|
    ensures !EndsWith(Identity.Lower(fileName), IconSuffix) ==> base == fileName
  {
    if EndsWith(Identity.Lower(fileName), IconSuffix) then fileName[..|fileName| - |IconSuffix|] else fileName
  }

  /** Every underscore becomes a space. */
  function Spaced(s: string): (r: string)
    ensures |r| == |s| && '_' !in r
    ensures forall i :: 0 <= i < |s| ==> r[i] == (if s[i] == '_' then ' ' else s[i])
  {
    seq(|s|, i requires 0 <= i < |s| => if s[i] == '_' then ' ' else s[i])
  }

  /** The name shown for an icon file: no underscore, otherwise a copy of a prefix of the file name. */
  function DisplayName(fileName: string): (name: string)
    ensures '_' !in name
    ensures |name| <= |fileName|
    ensures forall i :: 0 <= i < |name| && fileName[i] != '_' ==> name[i] == fileName[i]
  {
    Spaced(StripIconSuffix(fileName))
  }

  /** Deriving a display name twice changes nothing more. */
  lemma {:induction false} DisplayNameIdempotent(fileName: string)
    ensures DisplayName(DisplayName(fileName)) == DisplayName(fileName)
  {
    var d := DisplayName(fileName);
    var k := |d| - |IconSuffix|;
    if 0 <= k {
      assert Identity.Lower(d)[k] != IconSuffix[0];
      assert Identity.Lower(d)[k..][0] != IconSuffix[0];
    }
  }

  /** The three icons offered when the asset listing cannot be fetched. */
  const Fallback: seq<Icon> := [
    Icon("Great_Jagras_Icon.webp", "Great Jagras"),
    Icon("Rathalos_Icon.webp", "Rathalos"),
    Icon("Nergigante_Icon.webp", "Nergigante")
  ]

  function FileNames(icons: seq<Icon>): (names: seq<string>)
    ensures |names| == |icons|
    ensures forall i :: 0 <= i < |icons| ==> names[i] == icons[i].fileName
  {
    seq(|icons|, i requires 0 <= i < |icons| => icons[i].fileName)
  }

  /** The icons built from a successful listing: an icon for each image among the names, in order. */
  function IconsOf(names: seq<string>): (icons: seq<Icon>)
    ensures |icons| <= |names|
    ensures forall i :: 0 <= i < |icons| ==> IsImage(icons[i].fileName) && icons[i].displayName == DisplayName(icons[i].fileName)
  {
    if names == [] then []
    else if IsImage(names[0]) then [Icon(names[0], DisplayName(names[0]))] + IconsOf(names[1..])
    else IconsOf(names[1..])
  }

  /** The file names of a listing's icons: the first name if it is an image, then those of the rest. */
  lemma FileNamesCons(names: seq<string>)
    requires names != []
    ensures FileNames(IconsOf(names)) == (if IsImage(names[0]) then [names[0]] else []) + FileNames(IconsOf(names[1..]))
  {
    if IsImage(names[0]) {
      assert IconsOf(names) == [Icon(names[0], DisplayName(names[0]))] + IconsOf(names[1..]);
    }
  }

  /** The listing keeps exactly the images among the names. */
  lemma {:induction false} IconsOfKeepsImages(names: seq<string>)
    ensures forall n :: n in FileNames(IconsOf(names)) <==> n in names && IsImage(n)
  {
    if names != [] {
      IconsOfKeepsImages(names[1..]);
      FileNamesCons(names);
      assert names == [names[0]] + names[1..];
    }
  }

  /**
   * `useMonsterIcons`: the listing of the asset folder, or None when the
   * request failed (network error or an unsuccessful status), gives the icon catalogue.
   */
  function IconCatalogue(listing: Option<seq<string>>): (icons: seq<Icon>)
    ensures listing.None? ==> icons == Fallback
    ensures listing.Some? ==> forall n :: n in FileNames(icons) <==> n in listing.value && IsImage(n)
  {
    match listing
    case None => Fallback
    case Some(names) => IconsOfKeepsImages(names); IconsOf(names)
  }

  /** The fallback names are the ones the listing derives for those files. */
  lemma FallbackIsDerived(f: string)
    requires f == "Great_Jagras_Icon.webp"
    ensures DisplayName(f) == "Great Jagras"
  {
    assert Identity.Lower(f)[|f| - |IconSuffix|..] == IconSuffix;
    assert StripIconSuffix(f) == "Great_Jagras";
  }
}
