/**
 * Confirming the zip password: the user types it twice, and is asked again until
 * the two entries agree. The console input is a finite sequence of attempts.
 */
module Password {

  import opened Wrappers

  /** One round of the prompt: the password and its re-entry. */
  datatype Attempt = Attempt(entered: string, reentered: string)

  /** `password_check`. */
  function PasswordCheck(password: string, password2: string): (r: bool)
    ensures r <==> password == password2
  {
    if password == password2 then true else false
  }

  /** The first attempt whose two entries agree, if any. */
  function FirstMatch(attempts: seq<Attempt>): (r: Option<nat>)
    ensures r.Some? ==> r.value < |attempts| && attempts[r.value].entered == attempts[r.value].reentered
    ensures r.Some? ==> forall j :: 0 <= j < r.value ==> attempts[j].entered != attempts[j].reentered
    ensures r.None? <==> forall j :: 0 <= j < |attempts| ==> attempts[j].entered != attempts[j].reentered
  {
    if attempts == [] then None
    else if attempts[0].entered == attempts[0].reentered then Some(0)
    else match FirstMatch(attempts[1..])
      case None => None
      case Some(k) => Some(k + 1)
  }

  /**
   * `password_set`: loops while the entries disagree, counting one mismatch
   * message per failed round. The chosen password is that of the first agreeing
   * round; when the attempts run out first there is none.
   */
  method PasswordSet(attempts: seq<Attempt>) returns (password: Option<string>, mismatches: nat)
    ensures FirstMatch(attempts).Some? ==>
      password == Some(attempts[FirstMatch(attempts).value].entered) && mismatches == FirstMatch(attempts).value
    ensures FirstMatch(attempts).None? ==> password == None && mismatches == |attempts|
  {
    var check := false;
    var entered := "";
    var i := 0;
    mismatches := 0;
    while !check && i < |attempts|
      invariant 0 <= i <= |attempts|
      invariant forall j :: 0 <= j < i - 1 ==> attempts[j].entered != attempts[j].reentered
      invariant check ==> 0 < i && entered == attempts[i - 1].entered == attempts[i - 1].reentered
      invariant !check ==> forall j :: 0 <= j < i ==> attempts[j].entered != attempts[j].reentered
      invariant mismatches == if check then i - 1 else i
    {
      entered := attempts[i].entered;
      var reentered := attempts[i].reentered;
      check := PasswordCheck(entered, reentered);
      if !check {
        mismatches := mismatches + 1;
      }
      i := i + 1;
    }
    password := if check then Some(entered) else None;
  }
}
