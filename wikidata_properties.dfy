/** Named Wikidata property ids and their human-readable labels
 *  (src/flickypedia/structured_data/wikidata_properties.py). */
module WikidataProperties {
  import opened Wrappers
  import opened Text

  const Operator := "P137"
  const AppliesToJurisdiction := "P1001"
  const Creator := "P170"
  const DescribedAtUrl := "P973"
  const DeterminationMethod := "P459"
  const AuthorName := "P2093"
  const CoordinatesOfThePointOfView := "P1259"
  const FlickrPhotoId := "P12120"
  const FlickrUserId := "P3267"
  const Url := "P2699"
  const SourceOfFile := "P7482"
  const CopyrightLicense := "P275"
  const CopyrightStatus := "P6216"
  const Inception := "P571"
  const PublicationDate := "P577"
  const PublishedIn := "P1433"
  const Retrieved := "P813"
  const SourcingCircumstances := "P1480"

  /** The class's own docstring and module name: `dir()` lists these
   *  string attributes too, after the property names. */
  const DocAttribute := "\n    Named constants for Wikidata properties.\n    "
  const ModuleAttribute := "flickypedia.structured_data.wikidata_properties"

  /** The loop over `dir(WikidataProperties)`: the name of the first
   *  attribute, in sorted order, whose value is `id`. */
  function FindAttribute(id: string): Option<string>
  {
    if id == AppliesToJurisdiction then Some("AppliesToJurisdiction")
    else if id == AuthorName then Some("AuthorName")
    else if id == CoordinatesOfThePointOfView then Some("CoordinatesOfThePointOfView")
    else if id == CopyrightLicense then Some("CopyrightLicense")
    else if id == CopyrightStatus then Some("CopyrightStatus")
    else if id == Creator then Some("Creator")
    else if id == DescribedAtUrl then Some("DescribedAtUrl")
    else if id == DeterminationMethod then Some("DeterminationMethod")
    else if id == FlickrPhotoId then Some("FlickrPhotoId")
    else if id == FlickrUserId then Some("FlickrUserId")
    else if id == Inception then Some("Inception")
    else if id == Operator then Some("Operator")
    else if id == PublicationDate then Some("PublicationDate")
    else if id == PublishedIn then Some("PublishedIn")
    else if id == Retrieved then Some("Retrieved")
    else if id == SourceOfFile then Some("SourceOfFile")
    else if id == SourcingCircumstances then Some("SourcingCircumstances")
    else if id == Url then Some("Url")
    else if id == DocAttribute then Some("__doc__")
    else if id == ModuleAttribute then Some("__module__")
    else None
  }

  /** `getattr(WikidataProperties, name)`: a name the class does not define
   *  raises AttributeError. */
  function Attribute(name: string): (r: Result<string>)
    ensures r.Err? ==> r.error == AttributeError
  {
    if name == "AppliesToJurisdiction" then Ok(AppliesToJurisdiction)
    else if name == "AuthorName" then Ok(AuthorName)
    else if name == "CoordinatesOfThePointOfView" then Ok(CoordinatesOfThePointOfView)
    else if name == "CopyrightLicense" then Ok(CopyrightLicense)
    else if name == "CopyrightStatus" then Ok(CopyrightStatus)
    else if name == "Creator" then Ok(Creator)
    else if name == "DescribedAtUrl" then Ok(DescribedAtUrl)
    else if name == "DeterminationMethod" then Ok(DeterminationMethod)
    else if name == "FlickrPhotoId" then Ok(FlickrPhotoId)
    else if name == "FlickrUserId" then Ok(FlickrUserId)
    else if name == "Inception" then Ok(Inception)
    else if name == "Operator" then Ok(Operator)
    else if name == "PublicationDate" then Ok(PublicationDate)
    else if name == "PublishedIn" then Ok(PublishedIn)
    else if name == "Retrieved" then Ok(Retrieved)
    else if name == "SourceOfFile" then Ok(SourceOfFile)
    else if name == "SourcingCircumstances" then Ok(SourcingCircumstances)
    else if name == "Url" then Ok(Url)
    else if name == "__doc__" then Ok(DocAttribute)
    else if name == "__module__" then Ok(ModuleAttribute)
    else Err(AttributeError)
  }

  predicate IsUpper(c: char) {
    'A' <= c <= 'Z'
  }

  /** End of the run of non-capitals starting at `i`. */
  function RunEnd(s: string, i: nat): (j: nat)
    requires i <= |s|
    ensures i <= j <= |s| && (j < |s| ==> IsUpper(s[j]))
    ensures forall k :: i <= k < j ==> !IsUpper(s[k])
    decreases |s| - i
  {
    if i == |s| || IsUpper(s[i]) then i else RunEnd(s, i + 1)
  }

  /** `re.findall("[A-Z][^A-Z]*", s)`: each word is a capital followed by
   *  the non-capitals after it; anything before the first capital is
   *  dropped. */
  function CamelWords(s: string): seq<string>
    decreases |s|
  {
    if s == [] then []
    else if !IsUpper(s[0]) then CamelWords(s[1..])
    else
      var j := RunEnd(s, 1);
      [s[..j]] + CamelWords(s[j..])
  }

  /** The label of an attribute name: its words, lower-cased, joined by spaces. */
  function AttributeLabel(name: string): string {
    Lower(Join(" ", CamelWords(name)))
  }

  /** `get_wikidata_property_label`. */
  function PropertyLabel(id: string): (r: Result<string>)
    ensures id == Inception ==> r == Ok("date created")
    ensures id == CoordinatesOfThePointOfView ==> r == Ok("location")
    ensures r.Err? <==> FindAttribute(id).None?
    ensures r.Err? ==> r.error == KeyError
    ensures id != Inception && id != CoordinatesOfThePointOfView && FindAttribute(id).Some? ==>
      r == Ok(AttributeLabel(FindAttribute(id).value))
  {
    if id == "P571" then Ok("date created")
    else if id == "P1259" then Ok("location")
    else match FindAttribute(id)
      case Some(name) => Ok(AttributeLabel(name))
      case None => Err(KeyError)
  }

  lemma OperatorWords()
    ensures AttributeLabel("Operator") == "operator"
  {
    assert CamelWords("Operator") == ["Operator"] by {
      assert RunEnd("Operator", 1) == 8;
      assert "Operator"[8..] == [] && "Operator"[..8] == "Operator";
      assert CamelWords([]) == [];
    }
    assert Join(" ", ["Operator"]) == "Operator";
    assert Lower("Operator") == "operator";
  }

  lemma OperatorLabel()
    ensures PropertyLabel(Operator) == Ok("operator")
  {
    assert FindAttribute(Operator) == Some("Operator");
    OperatorWords();
  }

  lemma AuthorNameSplit()
    ensures CamelWords("AuthorName") == ["Author", "Name"]
  {
    assert CamelWords("Name") == ["Name"] by {
      assert RunEnd("Name", 1) == 4;
      assert "Name"[4..] == [] && "Name"[..4] == "Name";
      assert CamelWords([]) == [];
    }
    assert RunEnd("AuthorName", 1) == 6;
    assert "AuthorName"[6..] == "Name" && "AuthorName"[..6] == "Author";
  }

  lemma LowerAuthorName()
    ensures Lower("Author Name") == "author name"
  {
  }

  lemma AuthorNameWords()
    ensures AttributeLabel("AuthorName") == "author name"
  {
    AuthorNameSplit();
    assert Join(" ", ["Author", "Name"]) == "Author Name" by {
      assert ["Author", "Name"][1..] == ["Name"];
    }
    LowerAuthorName();
  }

  lemma AuthorNameLabel()
    ensures PropertyLabel(AuthorName) == Ok("author name")
  {
    assert FindAttribute(AuthorName) == Some("AuthorName");
    AuthorNameWords();
  }

  lemma UnknownPropertyLabel()
    ensures PropertyLabel("P1") == Err(KeyError)
  {
  }
}
