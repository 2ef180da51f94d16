/** Renaming of metadata keys read from iq.tar XML to the names Meta uses. */
module MetaUtils {

  /** map_meta_information_name: "datetime" becomes "date", every other key stays. */
  function MapMetaInformationName(key: string): (r: string)
    ensures key == "datetime" ==> r == "date"
    ensures key != "datetime" ==> r == key
  {
    if key == "datetime" then "date" else key
  }

  /** Mapping twice is mapping once, and never yields "datetime". */
  lemma MapMetaInformationNameIdempotent(key: string)
    ensures MapMetaInformationName(MapMetaInformationName(key)) == MapMetaInformationName(key)
    ensures MapMetaInformationName(key) != "datetime"
  {
  }

  /** Two keys map to the same name only when equal, or when they are "date" and "datetime". */
  lemma MapMetaInformationNameCollisions(a: string, b: string)
    ensures MapMetaInformationName(a) == MapMetaInformationName(b) <==>
            a == b || ({a, b} == {"date", "datetime"})
  {
  }
}
