/**
 * Disease metadata shared by the prediction API and the interactive
 * predictor: the three severity tiers and the specialist table, both
 * keyed on the lower-cased disease name, and the per-disease lookup that
 * falls back to "General Physician" and "Mild" when a predicted disease
 * has no row in the disease list.
 */
module DiseaseInfo {
  import opened Wrappers
  import opened Text

  datatype Severity = Severe | Moderate | Mild

  /** Lower-cased names classified "Severe". */
  const SevereNames: seq<string> :=
    ["heart attack", "stroke", "cancer", "kidney failure", "liver cirrhosis", "covid-19", "pneumonia"]

  /** Lower-cased names classified "Moderate" when they are not severe. */
  const ModerateNames: seq<string> :=
    ["diabetes", "hypertension", "asthma", "arthritis", "tuberculosis", "depression"]

  const DefaultSpecialist := "General Physician"

  /** The doctor mapping, from lower-cased disease name to specialist. */
  const Specialists: map<string, string> := map[
    "multiple sclerosis" := "Neurologist",
    "neurosis" := "Psychiatrist",
    "psychotic disorder" := "Psychiatrist",
    "personality disorder" := "Psychiatrist",
    "panic disorder" := "Psychiatrist",
    "acute stress reaction" := "Psychiatrist",
    "anxiety" := "Psychiatrist",
    "complex regional pain syndrome" := "Neurologist",
    "peripheral nerve disorder" := "Neurologist",
    "concussion" := "Neurologist",
    "developmental disability" := "Neurologist",
    "heart attack" := "Cardiologist",
    "heart failure" := "Cardiologist",
    "hypertensive heart disease" := "Cardiologist",
    "angina" := "Cardiologist",
    "sinus bradycardia" := "Cardiologist",
    "asthma" := "Pulmonologist",
    "chronic obstructive pulmonary disease (copd)" := "Pulmonologist",
    "acute bronchitis" := "Pulmonologist",
    "acute bronchiolitis" := "Pulmonologist",
    "pneumonia" := "Pulmonologist",
    "acute bronchospasm" := "Pulmonologist",
    "obstructive sleep apnea (osa)" := "Pulmonologist",
    "croup" := "Pulmonologist",
    "sickle cell crisis" := "Hematologist",
    "sepsis" := "Infectious Disease Specialist",
    "hypoglycemia" := "Endocrinologist",
    "otitis media" := "ENT Specialist",
    "otitis externa (swimmer's ear)" := "ENT Specialist",
    "ear drum damage" := "ENT Specialist",
    "eustachian tube dysfunction (ear disorder)" := "ENT Specialist",
    "nose disorder" := "ENT Specialist",
    "acute sinusitis" := "ENT Specialist",
    "seasonal allergies (hay fever)" := "ENT Specialist",
    "strep throat" := "ENT Specialist",
    "cornea infection" := "Ophthalmologist",
    "conjunctivitis" := "Ophthalmologist",
    "conjunctivitis due to allergy" := "Ophthalmologist",
    "blepharitis" := "Ophthalmologist",
    "stye" := "Ophthalmologist",
    "macular degeneration" := "Ophthalmologist",
    "dental caries" := "Dentist",
    "injury to the leg" := "Orthopedic Surgeon",
    "injury to the arm" := "Orthopedic Surgeon",
    "injury to the trunk" := "Orthopedic Surgeon",
    "sprain or strain" := "Orthopedic Surgeon",
    "degenerative disc disease" := "Orthopedic Surgeon",
    "spondylosis" := "Orthopedic Surgeon",
    "spinal stenosis" := "Orthopedic Surgeon",
    "herniated disk" := "Orthopedic Surgeon",
    "arthritis of the hip" := "Orthopedic Surgeon",
    "bursitis" := "Orthopedic Surgeon",
    "appendicitis" := "Gastroenterologist",
    "diverticulitis" := "Gastroenterologist",
    "noninfectious gastroenteritis" := "Gastroenterologist",
    "infectious gastroenteritis" := "Gastroenterologist",
    "gastrointestinal hemorrhage" := "Gastroenterologist",
    "esophagitis" := "Gastroenterologist",
    "hiatal hernia" := "Gastroenterologist",
    "cholecystitis" := "Gastroenterologist",
    "gallstone" := "Gastroenterologist",
    "liver disease" := "Hepatologist",
    "rectal disorder" := "Gastroenterologist",
    "fungal infection of the hair" := "Dermatologist",
    "pyogenic skin infection" := "Dermatologist",
    "drug reaction" := "Dermatologist",
    "allergy" := "Allergist",
    "contact dermatitis" := "Dermatologist",
    "vaginitis" := "Gynecologist",
    "vaginal cyst" := "Gynecologist",
    "hyperemesis gravidarum" := "Gynecologist",
    "problem during pregnancy" := "Gynecologist",
    "threatened pregnancy" := "Gynecologist",
    "spontaneous abortion" := "Gynecologist",
    "idiopathic painful menstruation" := "Gynecologist",
    "idiopathic irregular menstrual cycle" := "Gynecologist",
    "idiopathic excessive menstruation" := "Gynecologist",
    "vulvodynia" := "Gynecologist",
    "urinary tract infection" := "Urologist",
    "pyelonephritis" := "Urologist",
    "cystitis" := "Urologist",
    "benign prostatic hyperplasia (bph)" := "Urologist",
    "kidney stone" := "Urologist",
    "acute kidney injury" := "Nephrologist",
    "common cold" := "General Physician",
    "pain after an operation" := "General Physician",
    "marijuana abuse" := "General Physician",
    "chronic constipation" := "Gastroenterologist",
    "psoriasis" := "Dermatologist",
    "eczema" := "Dermatologist",
    "sebaceous cyst" := "Dermatologist",
    "skin pigmentation disorder" := "Dermatologist",
    "actinic keratosis" := "Dermatologist"
  ]

  /** No name is in both tier lists, so the order of the two tests never matters. */
  lemma TiersDisjoint()
    ensures forall n :: n in SevereNames ==> n !in ModerateNames
  {
  }

  /** The nested `np.where`: the severe list first, then the moderate list, else mild. */
  function SeverityOf(disease: string): (s: Severity)
    ensures s == Severe <==> ToLower(disease) in SevereNames
    ensures s == Moderate <==> ToLower(disease) in ModerateNames
    ensures s == Mild <==> ToLower(disease) !in SevereNames && ToLower(disease) !in ModerateNames
  {
    TiersDisjoint();
    var key := ToLower(disease);
    if key in SevereNames then Severe
    else if key in ModerateNames then Moderate
    else Mild
  }

  /** `.str.lower().map(mapping).fillna("General Physician")` */
  function SpecialistOf(disease: string): (s: string)
    ensures ToLower(disease) in Specialists ==> s == Specialists[ToLower(disease)]
    ensures ToLower(disease) !in Specialists ==> s == DefaultSpecialist
  {
    var key := ToLower(disease);
    if key in Specialists then Specialists[key] else DefaultSpecialist
  }

  /** One row of the disease list after the `Severity` and `Specialist` columns are added. */
  datatype InfoRow = InfoRow(disease: string, severity: Severity, specialist: string)

  /** The two derived columns computed for every row of the disease list, in order. */
  function LoadDiseaseInfo(names: seq<string>): (rows: seq<InfoRow>)
    ensures |rows| == |names|
    ensures forall i :: 0 <= i < |names| ==>
              rows[i].disease == names[i] && rows[i].severity == SeverityOf(names[i]) &&
              rows[i].specialist == SpecialistOf(names[i])
  {
    if names == [] then []
    else [InfoRow(names[0], SeverityOf(names[0]), SpecialistOf(names[0]))] + LoadDiseaseInfo(names[1..])
  }

  /** Row `k` is the first row whose name equals `disease` ignoring case. */
  predicate FirstMatchAt(info: seq<InfoRow>, disease: string, k: int) {
    0 <= k < |info| && ToLower(info[k].disease) == ToLower(disease) &&
    forall j :: 0 <= j < k ==> ToLower(info[j].disease) != ToLower(disease)
  }

  /** `DISEASE_INFO[DISEASE_INFO["Disease"].str.lower() == disease.lower()]`, first row. */
  function FindRow(info: seq<InfoRow>, disease: string): (r: Option<InfoRow>)
    ensures r.Some? ==> r.value in info && ToLower(r.value.disease) == ToLower(disease)
    ensures r.Some? ==> exists k :: FirstMatchAt(info, disease, k) && info[k] == r.value
    ensures r.None? <==> forall k :: 0 <= k < |info| ==> ToLower(info[k].disease) != ToLower(disease)
  {
    if info == [] then None
    else if ToLower(info[0].disease) == ToLower(disease) then
      assert FirstMatchAt(info, disease, 0);
      Some(info[0])
    else
      var r := FindRow(info[1..], disease);
      if r.Some? then
        var k :| FirstMatchAt(info[1..], disease, k) && info[1..][k] == r.value;
        assert info[k + 1] == r.value;
        assert FirstMatchAt(info, disease, k + 1) by {
          forall j | 0 <= j < k + 1 ensures ToLower(info[j].disease) != ToLower(disease) {
            if j > 0 { assert info[j] == info[1..][j - 1]; }
          }
        }
        r
      else r
  }

  /** The row found is the first matching one, wherever it is. */
  lemma FindRowAt(info: seq<InfoRow>, disease: string, k: int)
    requires FirstMatchAt(info, disease, k)
    ensures FindRow(info, disease) == Some(info[k])
  {
    var r := FindRow(info, disease);
    var k0 :| FirstMatchAt(info, disease, k0) && info[k0] == r.value;
    assert k0 == k;
  }

  lemma FindRowAtAny(info: seq<InfoRow>, disease: string)
    ensures forall k :: FirstMatchAt(info, disease, k) ==> FindRow(info, disease) == Some(info[k])
  {
    forall k | FirstMatchAt(info, disease, k) ensures FindRow(info, disease) == Some(info[k]) {
      FindRowAt(info, disease, k);
    }
  }

  datatype Metadata = Metadata(specialist: string, severity: Severity)

  /**
   * The specialist and severity shown for a predicted disease: those of the
   * first row whose name matches ignoring case, or "General Physician" and
   * "Mild" when no row matches.
   */
  function Describe(info: seq<InfoRow>, disease: string): (m: Metadata)
    ensures (forall k :: 0 <= k < |info| ==> ToLower(info[k].disease) != ToLower(disease)) ==>
              m == Metadata(DefaultSpecialist, Mild)
    ensures forall k :: FirstMatchAt(info, disease, k) ==> m == Metadata(info[k].specialist, info[k].severity)
  {
    FindRowAtAny(info, disease);
    match FindRow(info, disease)
    case Some(row) => Metadata(row.specialist, row.severity)
    case None => Metadata(DefaultSpecialist, Mild)
  }

  /** Severity and specialist depend on the name only through its lower-cased form. */
  lemma TablesIgnoreCase(a: string, b: string)
    requires ToLower(a) == ToLower(b)
    ensures SeverityOf(a) == SeverityOf(b) && SpecialistOf(a) == SpecialistOf(b)
  {
  }

  /**
   * Against the loaded list, a predicted disease gets its own tier and
   * specialist when some row matches it ignoring case, and the defaults
   * "General Physician" and "Mild" otherwise, whatever its name.
   */
  lemma DescribeLoaded(names: seq<string>, disease: string)
    ensures (exists k :: 0 <= k < |names| && ToLower(names[k]) == ToLower(disease)) ==>
              Describe(LoadDiseaseInfo(names), disease) == Metadata(SpecialistOf(disease), SeverityOf(disease))
    ensures (forall k :: 0 <= k < |names| ==> ToLower(names[k]) != ToLower(disease)) ==>
              Describe(LoadDiseaseInfo(names), disease) == Metadata(DefaultSpecialist, Mild)
  {
    var info := LoadDiseaseInfo(names);
    match FindRow(info, disease)
    case Some(row) =>
      var k :| 0 <= k < |info| && info[k] == row;
      TablesIgnoreCase(row.disease, disease);
    case None =>
  }

  /**
   * The tier test is exact, not by prefix or by word: a name that lower-cases
   * to "arthritis of the hip" goes to an orthopedic surgeon and is mild,
   * while one that lower-cases to "arthritis" is moderate.
   */
  lemma ExactKeys(hip: string, plain: string)
    requires ToLower(hip) == "arthritis of the hip" && ToLower(plain) == "arthritis"
    ensures SpecialistOf(hip) == "Orthopedic Surgeon" && SeverityOf(hip) == Mild
    ensures SeverityOf(plain) == Moderate
  {
  }

  /** "Chronic Constipation", in any letter case, goes to a gastroenterologist. */
  lemma ConstipationToGastroenterologist(disease: string)
    requires ToLower(disease) == "chronic constipation"
    ensures SpecialistOf(disease) == "Gastroenterologist" && SeverityOf(disease) == Mild
  {
  }

  /** A severe disease missing from the disease list is still shown as mild. */
  lemma MissingRowHidesSeverity(disease: string)
    requires ToLower(disease) == "stroke"
    ensures SeverityOf(disease) == Severe
    ensures Describe([], disease) == Metadata(DefaultSpecialist, Mild)
  {
  }
}
