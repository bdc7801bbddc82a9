/** The session state of the two-page intake wizard (`app.py`): a profile
    page, then a diagnosis page that moves through an initial, a follow-up
    and a final step. Each button handler is a method; the page and step on
    which Streamlit renders the button are its precondition. */
module Wizard {
  import opened Wrappers
  import Text
  import ModelLogic

  datatype Page = ProfilePage | DiagnosisPage

  datatype Step = Initial | Followup | Final

  /** The optional laboratory values of the intake form. */
  datatype Labs = Labs(bloodSugar: int, systolicBp: int, spo2: int)

  /** What the intake form submits and `user_data` stores. */
  datatype Profile = Profile(name: string, age: int, gender: string, weight: real,
                             allergies: seq<string>, chronic: seq<string>, labs: Labs)

  /** The candidates hold at most three entries and no label twice. */
  predicate WellFormedCandidates(top3: seq<ModelLogic.Candidate>)
  {
    |top3| <= 3 && forall k, l :: 0 <= k < l < |top3| ==> top3[k].disease != top3[l].disease
  }

  class Session {
    var page: Page
    var step: Step
    /** `None` for the empty `user_data` dictionary. */
    var userData: Option<Profile>
    var top3: seq<ModelLogic.Candidate>
    var initialSymptoms: string
    var followupResponse: string

    /** What every reachable state satisfies: the profile page is always at
        the initial step; the diagnosis page always has a stored profile (the
        page title reads `user_data['name']`), whose name is not blank; a
        later step has non-blank symptoms, and the final step also a non-blank
        follow-up; the candidates are at most three distinct labels. */
    ghost predicate Valid()
      reads this
    {
      && (page == ProfilePage ==> step == Initial)
      && (page == DiagnosisPage ==> userData.Some?)
      && (userData.Some? ==> !Text.IsBlank(userData.value.name))
      && (step != Initial ==> !Text.IsBlank(initialSymptoms))
      && (step == Final ==> !Text.IsBlank(followupResponse))
      && WellFormedCandidates(top3)
    }

    /** The defaults a fresh session gets. */
    ghost predicate IsInitial()
      reads this
    {
      && page == ProfilePage && step == Initial && userData == None
      && top3 == [] && initialSymptoms == "" && followupResponse == ""
    }

    /** A fresh session. */
    constructor ()
      ensures Valid() && IsInitial()
    {
      page := ProfilePage;
      userData := None;
      step := Initial;
      top3 := [];
      initialSymptoms := "";
      followupResponse := "";
    }

    /** "Continue to Diagnosis": a blank name stops the run and changes
        nothing; otherwise the profile, labs included, is stored and the
        diagnosis page opens at the initial step. */
    method SubmitProfile(form: Profile)
      requires Valid() && page == ProfilePage
      modifies this
      ensures Valid()
      ensures Text.IsBlank(form.name) ==> unchanged(this)
      ensures !Text.IsBlank(form.name) ==>
                && userData == Some(form) && page == DiagnosisPage && step == Initial
                && top3 == old(top3) && initialSymptoms == old(initialSymptoms)
                && followupResponse == old(followupResponse)
    {
      Text.StripEmptyIffBlank(form.name);
      if |Text.Strip(form.name)| == 0 {
        return;
      }
      userData := Some(form);
      page := DiagnosisPage;
      step := Initial;
    }

    /** "Edit Profile": back to the profile page at the initial step; the rest
        of the session is kept. */
    method EditProfile()
      requires Valid() && page == DiagnosisPage
      modifies this
      ensures Valid()
      ensures page == ProfilePage && step == Initial
      ensures userData == old(userData) && top3 == old(top3)
      ensures initialSymptoms == old(initialSymptoms) && followupResponse == old(followupResponse)
    {
      page := ProfilePage;
      step := Initial;
    }

    /** "Analyze": blank symptoms stop the run and change nothing; otherwise
        the ranker's top three for the selected engine, and the symptoms, are
        stored and the follow-up step begins. */
    method Analyze(symptoms: string, mode: string, corpus: seq<ModelLogic.CorpusRow>,
                   fastTopK: seq<ModelLogic.Hit>, expertTopK: seq<ModelLogic.Hit>)
      requires Valid() && page == DiagnosisPage && step == Initial
      requires ModelLogic.ValidHits(corpus, fastTopK) && ModelLogic.ValidHits(corpus, expertTopK)
      modifies this
      ensures Valid()
      ensures Text.IsBlank(symptoms) ==> unchanged(this)
      ensures !Text.IsBlank(symptoms) ==>
                && top3 == ModelLogic.TopThree(corpus, ModelLogic.RankingFor(ModelLogic.SelectEngine(mode), fastTopK, expertTopK))
                && initialSymptoms == symptoms && step == Followup
                && page == old(page) && userData == old(userData)
                && followupResponse == old(followupResponse)
    {
      Text.StripEmptyIffBlank(symptoms);
      if |Text.Strip(symptoms)| == 0 {
        return;
      }
      var ranked := ModelLogic.GetTop3Diagnosis(corpus, mode, fastTopK, expertTopK);
      ghost var hits := ModelLogic.RankingFor(ModelLogic.SelectEngine(mode), fastTopK, expertTopK);
      ModelLogic.TopThreeBounds(corpus, hits);
      ModelLogic.TopThreeDistinctLabels(corpus, hits);
      top3 := ranked;
      initialSymptoms := symptoms;
      step := Followup;
    }

    /** "Finalize Diagnosis": a blank follow-up stops the run and changes
        nothing; otherwise it is stored and the final step begins. */
    method Finalize(followup: string)
      requires Valid() && page == DiagnosisPage && step == Followup
      modifies this
      ensures Valid()
      ensures Text.IsBlank(followup) ==> unchanged(this)
      ensures !Text.IsBlank(followup) ==>
                && followupResponse == followup && step == Final
                && page == old(page) && userData == old(userData)
                && top3 == old(top3) && initialSymptoms == old(initialSymptoms)
    {
      Text.StripEmptyIffBlank(followup);
      if |Text.Strip(followup)| == 0 {
        return;
      }
      followupResponse := followup;
      step := Final;
    }

    /** "Start Over": every session key is cleared, so the rerun that follows
        sets them all to their defaults again. */
    method StartOver()
      requires Valid() && page == DiagnosisPage && step == Final
      modifies this
      ensures Valid() && IsInitial()
    {
      page := ProfilePage;
      userData := None;
      step := Initial;
      top3 := [];
      initialSymptoms := "";
      followupResponse := "";
    }
  }
}
