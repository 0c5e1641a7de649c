/**
 * `src/services/linkedinProfile.ts`: a holder of one LinkedIn profile record,
 * seeded with defaults, read through getters and updated by a partial merge.
 */
module LinkedInProfiles {
  import opened Wrappers

  datatype LinkedInProfile = LinkedInProfile(
    name: string,
    headline: string,
    location: string,
    company: string,
    experience: string,
    education: string,
    skills: seq<string>,
    summary: string,
    profileUrl: string)

  /** `Partial<LinkedInProfile>`: each field present (`Some`) or absent (`None`). */
  datatype ProfilePatch = ProfilePatch(
    name: Option<string>,
    headline: Option<string>,
    location: Option<string>,
    company: Option<string>,
    experience: Option<string>,
    education: Option<string>,
    skills: Option<seq<string>>,
    summary: Option<string>,
    profileUrl: Option<string>)

  const EmptyPatch := ProfilePatch(None, None, None, None, None, None, None, None, None)

  const DefaultSkills := [
    "Software Engineering",
    "Automation Development",
    "System Design",
    "Object-Oriented Programming",
    "Clean Architecture",
    "CI/CD Pipelines",
    "Test Automation",
    "Problem Solving"]

  const DefaultProfile := LinkedInProfile(
    "Stav Lobel",
    "Software Engineer at REE Automotive",
    "Israel",
    "REE Automotive",
    "Automation Developer with expertise in software engineering and system design",
    "B.Sc. Software Engineering, SCE - Shamoon College of Engineering",
    DefaultSkills,
    "Software Engineer with strong technical skills and a solid foundation in object-oriented programming, "
      + "clean architecture, and scalable system design. "
      + "Experienced in developing tools and automation workflows across complex environments.",
    "https://linkedin.com/in/stavlobel")

  /** `{ ...profile, ...patch }`: every present field of the patch overrides, every absent one keeps its value. */
  function Merge(profile: LinkedInProfile, patch: ProfilePatch): (r: LinkedInProfile)
    ensures r.name == patch.name.GetOr(profile.name)
    ensures r.headline == patch.headline.GetOr(profile.headline)
    ensures r.location == patch.location.GetOr(profile.location)
    ensures r.company == patch.company.GetOr(profile.company)
    ensures r.experience == patch.experience.GetOr(profile.experience)
    ensures r.education == patch.education.GetOr(profile.education)
    ensures r.skills == patch.skills.GetOr(profile.skills)
    ensures r.summary == patch.summary.GetOr(profile.summary)
    ensures r.profileUrl == patch.profileUrl.GetOr(profile.profileUrl)
  {
    LinkedInProfile(
      patch.name.GetOr(profile.name),
      patch.headline.GetOr(profile.headline),
      patch.location.GetOr(profile.location),
      patch.company.GetOr(profile.company),
      patch.experience.GetOr(profile.experience),
      patch.education.GetOr(profile.education),
      patch.skills.GetOr(profile.skills),
      patch.summary.GetOr(profile.summary),
      patch.profileUrl.GetOr(profile.profileUrl))
  }

  /** The patch that has the fields of `later` where present, else those of `earlier`. */
  function Then(earlier: ProfilePatch, later: ProfilePatch): ProfilePatch {
    ProfilePatch(
      if later.name.Some? then later.name else earlier.name,
      if later.headline.Some? then later.headline else earlier.headline,
      if later.location.Some? then later.location else earlier.location,
      if later.company.Some? then later.company else earlier.company,
      if later.experience.Some? then later.experience else earlier.experience,
      if later.education.Some? then later.education else earlier.education,
      if later.skills.Some? then later.skills else earlier.skills,
      if later.summary.Some? then later.summary else earlier.summary,
      if later.profileUrl.Some? then later.profileUrl else earlier.profileUrl)
  }

  /** The empty partial changes nothing. */
  lemma MergeEmpty(profile: LinkedInProfile)
    ensures Merge(profile, EmptyPatch) == profile
  {
  }

  /** Applying the same partial twice is applying it once. */
  lemma MergeIdempotent(profile: LinkedInProfile, patch: ProfilePatch)
    ensures Merge(Merge(profile, patch), patch) == Merge(profile, patch)
  {
  }

  /** Two successive updates are one update with the later fields winning. */
  lemma MergeThen(profile: LinkedInProfile, earlier: ProfilePatch, later: ProfilePatch)
    ensures Merge(Merge(profile, earlier), later) == Merge(profile, Then(earlier, later))
  {
  }

  /** A patch that sets every field replaces the whole record, whatever it was. */
  lemma MergeFullPatch(p1: LinkedInProfile, p2: LinkedInProfile, target: LinkedInProfile)
    ensures var full := ProfilePatch(Some(target.name), Some(target.headline), Some(target.location),
                                     Some(target.company), Some(target.experience), Some(target.education),
                                     Some(target.skills), Some(target.summary), Some(target.profileUrl));
            Merge(p1, full) == Merge(p2, full) == target
  {
  }

  class LinkedInProfileService {
    var profileData: LinkedInProfile

    constructor ()
      ensures profileData == DefaultProfile
      ensures profileData.name == "Stav Lobel" && profileData.company == "REE Automotive"
      ensures |profileData.skills| == 8
    {
      profileData := DefaultProfile;
    }

    function GetProfileData(): LinkedInProfile
      reads this
    {
      profileData
    }

    method UpdateProfileData(patch: ProfilePatch)
      modifies this
      ensures profileData == Merge(old(profileData), patch)
    {
      profileData := Merge(profileData, patch);
    }

    function GetHeadline(): string reads this { profileData.headline }
    function GetCurrentCompany(): string reads this { profileData.company }
    function GetLocation(): string reads this { profileData.location }
    function GetSkills(): seq<string> reads this { profileData.skills }
    function GetExperience(): string reads this { profileData.experience }
    function GetEducation(): string reads this { profileData.education }
    function GetSummary(): string reads this { profileData.summary }
    function GetProfileUrl(): string reads this { profileData.profileUrl }
  }

  /** Each getter reads its own field of the record that `getProfileData` returns. */
  lemma GettersReadProfileData(service: LinkedInProfileService)
    ensures var data := service.GetProfileData();
            && service.GetHeadline() == data.headline
            && service.GetCurrentCompany() == data.company
            && service.GetLocation() == data.location
            && service.GetSkills() == data.skills
            && service.GetExperience() == data.experience
            && service.GetEducation() == data.education
            && service.GetSummary() == data.summary
            && service.GetProfileUrl() == data.profileUrl
  {
  }
}
