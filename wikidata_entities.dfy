/** Named Wikidata entity ids and the license table
 *  (src/flickypedia/structured_data/wikidata_entities.py). */
module WikidataEntities {
  import opened Wrappers

  const Circa := "Q5727902"
  const Copyrighted := "Q50423863"
  const DedicatedToPublicDomainByCopyrightOwner := "Q88088423"
  const FileAvailableOnInternet := "Q74228490"
  const Flickr := "Q103204"
  const GregorianCalendar := "Q1985727"
  const NationalLibraryOfFinland := "Q420747"
  const PublicDomain := "Q19652"
  const StatedByCopyrightHolderAtSourceWebsite := "Q61045577"
  const UnitedStatesOfAmerica := "Q30"
  const WorkOfTheFederalGovernmentOfTheUnitedStates := "Q60671452"

  /** `WikidataEntities.Licenses[license_id]`: the seven licenses
   *  Flickypedia writes SDC for. */
  function License(licenseId: string): Option<string> {
    if licenseId == "cc-by-2.0" then Some("Q19125117")
    else if licenseId == "cc-by-sa-2.0" then Some("Q19068220")
    else if licenseId == "cc-by-4.0" then Some("Q20007257")
    else if licenseId == "cc-by-sa-4.0" then Some("Q18199165")
    else if licenseId == "cc0-1.0" then Some("Q6938433")
    else if licenseId == "usgov" then Some("Q60671452")
    else if licenseId == "pdm" then Some("Q19652")
    else None
  }

  /** The older table (src/flickypedia/apis/structured_data/wikidata.py),
   *  which predates the 4.0 licenses. */
  function LicenseV2(licenseId: string): Option<string> {
    if licenseId == "cc-by-2.0" then Some("Q19125117")
    else if licenseId == "cc-by-sa-2.0" then Some("Q19068220")
    else if licenseId == "cc0-1.0" then Some("Q6938433")
    else if licenseId == "usgov" then Some("Q60671452")
    else if licenseId == "pdm" then Some("Q19652")
    else None
  }
}
