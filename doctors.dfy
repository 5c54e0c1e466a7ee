/**
 * The doctors page (src/pages/Doctors.tsx): the `specialty` route parameter,
 * the list filtered by it, the path a radio choice navigates to, and the
 * availability label on each card.
 */
module Doctors {
  import opened Wrappers
  import opened TimeRangeLabel

  datatype Specialty = Specialty(id: int, name: string, route: string)

  /** The fields of `IDoctor` the page reads. */
  datatype Doctor = Doctor(id: int, fullName: string, specialty: Specialty, workStart: string, workEnd: string)

  /** `const { specialty = 'all' } = useParams()`. */
  function SpecialtyParam(param: Option<string>): (s: string)
    ensures param.None? ==> s == "all"
    ensures param.Some? ==> s == param.value
  {
    param.GetOr("all")
  }

  /** `doctors.filter((item) => item.specialty.route === specialty)`. */
  function FilterBySpecialty(doctors: seq<Doctor>, route: string): (r: seq<Doctor>)
    ensures |r| <= |doctors|
    ensures forall i :: 0 <= i < |r| ==> r[i].specialty.route == route
  {
    if doctors == [] then []
    else
      var rest := FilterBySpecialty(doctors[1..], route);
      if doctors[0].specialty.route == route then [doctors[0]] + rest else rest
  }

  /** `filteredDoctors`. */
  function FilteredDoctors(doctors: seq<Doctor>, specialty: string): seq<Doctor> {
    if specialty == "all" then doctors else FilterBySpecialty(doctors, specialty)
  }

  /** `a` is `b` with some elements left out, the rest in their order. */
  predicate IsSubsequence<T(==)>(a: seq<T>, b: seq<T>)
    decreases |b|
  {
    if a == [] then true
    else if b == [] then false
    else (a[0] == b[0] && IsSubsequence(a[1..], b[1..])) || IsSubsequence(a, b[1..])
  }

  /** A doctor is listed exactly when it is in the input and has the chosen specialty. */
  lemma {:induction false} FilterMembership(doctors: seq<Doctor>, route: string, d: Doctor)
    ensures d in FilterBySpecialty(doctors, route) <==> d in doctors && d.specialty.route == route
  {
    if doctors != [] {
      FilterMembership(doctors[1..], route, d);
      assert doctors == [doctors[0]] + doctors[1..];
    }
  }

  /** The filter keeps the input order: its result is a subsequence of the list. */
  lemma {:induction false} FilterIsSubsequence(doctors: seq<Doctor>, route: string)
    ensures IsSubsequence(FilterBySpecialty(doctors, route), doctors)
  {
    if doctors != [] {
      FilterIsSubsequence(doctors[1..], route);
      var rest := FilterBySpecialty(doctors[1..], route);
      if doctors[0].specialty.route == route {
        assert ([doctors[0]] + rest)[1..] == rest;
      } else {
        SubsequenceOfTail(rest, doctors);
      }
    }
  }

  lemma {:induction false} SubsequenceOfTail<T>(a: seq<T>, b: seq<T>)
    requires b != [] && IsSubsequence(a, b[1..])
    ensures IsSubsequence(a, b)
  {
  }

  /** `'all'` shows the whole list, unchanged; any other value shows only its doctors. */
  lemma {:induction false} AllShowsEveryone(doctors: seq<Doctor>, specialty: string)
    ensures specialty == "all" ==> FilteredDoctors(doctors, specialty) == doctors
    ensures specialty != "all" ==> forall d :: d in FilteredDoctors(doctors, specialty) <==> d in doctors && d.specialty.route == specialty
  {
    if specialty != "all" {
      forall d {
        FilterMembership(doctors, specialty, d);
      }
    }
  }

  const DoctorsPath: string := "/doctors"

  /** `handleRadioGroupChange`: the path `navigate` is given. */
  function NavigationPath(value: string): (path: string)
    ensures value == "all" ==> path == DoctorsPath
    ensures value != "all" ==> |path| == |DoctorsPath| + 1 + |value|
    ensures value != "all" ==> path[..|DoctorsPath| + 1] == DoctorsPath + "/" && path[|DoctorsPath| + 1..] == value
  {
    DoctorsPath + (if value == "all" then "" else "/" + value)
  }

  /**
   * The `doctors` routes of src/App.tsx: `/doctors` is the index route (no
   * parameter); `/doctors/<segment>` gives the segment as `specialty`.
   */
  function RouteParam(path: string): Option<string> {
    if |path| > |DoctorsPath| + 1 && path[..|DoctorsPath| + 1] == DoctorsPath + "/" && '/' !in path[|DoctorsPath| + 1..]
    then Some(path[|DoctorsPath| + 1..])
    else None
  }

  /** Navigating to a choice brings the page back with that choice as its `specialty`. */
  lemma {:induction false} NavigationRoundTrip(value: string)
    requires value != "" && '/' !in value
    ensures SpecialtyParam(RouteParam(NavigationPath(value))) == value
  {
    var path := NavigationPath(value);
  }

  /** What a `DoctorCard` is given. */
  datatype Card = Card(id: int, name: string, specialtyName: string, availability: Option<string>)

  function CardFor(d: Doctor): (c: Card)
    ensures c.id == d.id && c.name == d.fullName && c.specialtyName == d.specialty.name
    ensures c.availability == PrettyTimeRange(d.workStart, d.workEnd)
  {
    Card(d.id, d.fullName, d.specialty.name, PrettyTimeRange(d.workStart, d.workEnd))
  }

  function Cards(doctors: seq<Doctor>): (cards: seq<Card>)
    ensures |cards| == |doctors|
    ensures forall i :: 0 <= i < |doctors| ==> cards[i] == CardFor(doctors[i])
  {
    seq(|doctors|, i requires 0 <= i < |doctors| => CardFor(doctors[i]))
  }
}
