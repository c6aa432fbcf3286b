/** The sign-up screen (components/Register.jsx): the guards, the bounded
    search for an unused seven-character referral code, the lookup of the
    inviter by code, and the user row inserted. Math.random is replaced by
    a sequence of draws, and each existence query by its answer. */
module Register {
  import opened Common
  import opened LedgerModel

  const CodeChars := "ABCDEFGHIJKLMNOPQRSTUVWXYZ0123456789"
  const CodeLength := 7
  const MaxAttempts := 100

  predicate IsCodeChar(c: char)
  {
    'A' <= c <= 'Z' || '0' <= c <= '9'
  }

  /** A referral code of the generated shape. */
  predicate IsReferralCode(code: string)
  {
    |code| == CodeLength && forall i :: 0 <= i < |code| ==> IsCodeChar(code[i])
  }

  /** Every draw of `Math.floor(Math.random() * chars.length)` indexes the
      alphabet, and there are enough draws for every attempt. */
  predicate DrawsCoverAttempts(draws: seq<int>)
  {
    |draws| >= CodeLength * MaxAttempts && forall i :: 0 <= i < |draws| ==> 0 <= draws[i] < |CodeChars|
  }

  /** The candidate of attempt `k`: the seven characters its draws pick. */
  function Candidate(draws: seq<int>, k: nat): (code: string)
    requires DrawsCoverAttempts(draws) && k < MaxAttempts
    ensures IsReferralCode(code)
  {
    seq(CodeLength, j requires 0 <= j < CodeLength => CodeChars[draws[CodeLength * k + j]])
  }

  /** What attempt `k`'s query reports: the candidate is taken. The query's
      error is ignored, so a failing read reports the code as free. */
  predicate Exists(draws: seq<int>, taken: set<string>, failingReads: set<nat>, k: nat)
    requires DrawsCoverAttempts(draws) && k < MaxAttempts
  {
    Candidate(draws, k) in taken && k !in failingReads
  }

  /** The outcome of the attempts from `k` on: the first candidate reported
      free, or none when every attempt up to the hundredth reports a taken
      code. */
  function GeneratedFrom(draws: seq<int>, taken: set<string>, failingReads: set<nat>, k: nat): (r: Option<string>)
    requires DrawsCoverAttempts(draws)
    ensures r.Some? ==> IsReferralCode(r.value)
    ensures r.None? <==> forall j :: k <= j < MaxAttempts ==> Exists(draws, taken, failingReads, j)
    ensures r.Some? && failingReads == {} ==> r.value !in taken
    decreases MaxAttempts - k
  {
    if k >= MaxAttempts then None
    else if !Exists(draws, taken, failingReads, k) then Some(Candidate(draws, k))
    else GeneratedFrom(draws, taken, failingReads, k + 1)
  }

  /** A generated code is the candidate of an attempt reported free, every
      earlier attempt having been reported taken. */
  lemma {:induction false} GeneratedIsFirstFree(draws: seq<int>, taken: set<string>, failingReads: set<nat>, k: nat)
    requires DrawsCoverAttempts(draws) && GeneratedFrom(draws, taken, failingReads, k).Some?
    ensures exists j :: && k <= j < MaxAttempts
                        && GeneratedFrom(draws, taken, failingReads, k).value == Candidate(draws, j)
                        && !Exists(draws, taken, failingReads, j)
                        && forall i :: k <= i < j ==> Exists(draws, taken, failingReads, i)
    decreases MaxAttempts - k
  {
    if !Exists(draws, taken, failingReads, k) {
      assert GeneratedFrom(draws, taken, failingReads, k).value == Candidate(draws, k);
    } else {
      GeneratedIsFirstFree(draws, taken, failingReads, k + 1);
      var j :| && k + 1 <= j < MaxAttempts
               && GeneratedFrom(draws, taken, failingReads, k + 1).value == Candidate(draws, j)
               && !Exists(draws, taken, failingReads, j)
               && forall i :: k + 1 <= i < j ==> Exists(draws, taken, failingReads, i);
      assert forall i :: k <= i < j ==> Exists(draws, taken, failingReads, i);
    }
  }

  /** generateReferralCode: draw a candidate and ask whether it is taken,
      while it is and fewer than 100 attempts were made; none when the last
      candidate is still taken. */
  method GenerateReferralCode(draws: seq<int>, taken: set<string>, failingReads: set<nat>) returns (code: Option<string>)
    requires DrawsCoverAttempts(draws)
    ensures code == GeneratedFrom(draws, taken, failingReads, 0)
  {
    var candidate: string := "";
    var inUse := true;
    var attempts := 0;
    while inUse && attempts < MaxAttempts
      invariant 0 <= attempts <= MaxAttempts
      invariant inUse ==> GeneratedFrom(draws, taken, failingReads, 0) == GeneratedFrom(draws, taken, failingReads, attempts)
      invariant !inUse ==> attempts > 0 && GeneratedFrom(draws, taken, failingReads, 0) == Some(candidate)
      decreases MaxAttempts - attempts, inUse
    {
      candidate := Candidate(draws, attempts);
      inUse := Exists(draws, taken, failingReads, attempts);
      attempts := attempts + 1;
    }
    if inUse {
      return None;
    }
    code := Some(candidate);
  }

  /** A first candidate that is free is the code, whatever the later draws. */
  lemma FirstFreeCandidateWins(draws: seq<int>, taken: set<string>)
    requires DrawsCoverAttempts(draws) && Candidate(draws, 0) !in taken
    ensures GeneratedFrom(draws, taken, {}, 0) == Some(Candidate(draws, 0))
  {
  }

  /** The code the inviter lookup asks for: none when the input is blank
      once trimmed (no inviter), otherwise the trimmed input upper-cased. */
  function InviterKey(referralInput: string): (key: Option<string>)
    ensures key.None? <==> Trim(referralInput) == ""
    ensures key.Some? ==> key.value == ToUpper(Trim(referralInput)) && |key.value| == |Trim(referralInput)|
  {
    if Trim(referralInput) == "" then None else Some(ToUpper(Trim(referralInput)))
  }

  /** Codes are stored upper-case, so a lower-case or padded input finds
      the same inviter as the stored code. */
  lemma LookupNormalises(a: char, code: string, b: char)
    requires IsSpace(a) && IsSpace(b)
    requires IsReferralCode(code)
    ensures InviterKey([a] + ToLower(code) + [b]) == Some(code)
  {
    var lower := ToLower(code);
    assert !IsSpace(lower[0]) && !IsSpace(lower[|lower| - 1]);
    TrimPadded(a, lower, b);
    UpperOfLowerCode(code);
  }

  /** An input of ideographic spaces is blank: there is no inviter to look
      up, whatever a lookup would answer. */
  lemma IdeographicBlankHasNoInviter(found: seq<int>)
    ensures ResolveInviter("\U{3000}\U{3000}", found) == NoInviter
  {
    TrimBlankIff("\U{3000}\U{3000}");
  }

  /** Upper-casing a lower-cased code gives the code back. */
  lemma UpperOfLowerCode(code: string)
    requires IsReferralCode(code)
    ensures ToUpper(ToLower(code)) == code
  {
    assert forall i :: 0 <= i < |code| ==> UpperChar(LowerChar(code[i])) == code[i];
  }

  /** The codes the users table holds, which the existence queries ask about. */
  function CodesIn(users: map<int, User>): (codes: set<string>)
    ensures forall u :: u in users ==> users[u].referralCode in codes
  {
    set u | u in users :: users[u].referralCode
  }

  /** The rows a lookup of `key` returns: the ids of the users holding it. */
  ghost predicate IsLookupAnswer(users: map<int, User>, key: string, found: seq<int>)
  {
    && (forall i :: 0 <= i < |found| ==> found[i] in users && users[found[i]].referralCode == key)
    && (forall id :: id in users && users[id].referralCode == key ==> id in found)
  }

  datatype Inviter = NoInviter | InvitedBy(id: int) | InvalidCode

  /** `if (referralInput) invitedBy = await getInviterId(referralInput)`:
      no inviter for an empty or blank input; otherwise `.single()` succeeds
      only when exactly one user holds the code. */
  function ResolveInviter(referralInput: string, found: seq<int>): (r: Inviter)
    ensures r == NoInviter <==> Trim(referralInput) == ""
    ensures r.InvitedBy? <==> Trim(referralInput) != "" && |found| == 1
    ensures r.InvitedBy? ==> r.id == found[0]
  {
    if referralInput == "" then NoInviter
    else if InviterKey(referralInput).None? then NoInviter
    else if |found| == 1 then InvitedBy(found[0])
    else InvalidCode
  }

  /** When exactly one user holds the code asked for, a lookup answering
      with one row names that user, and no answer names anyone else. */
  lemma InviterIsTheHolder(users: map<int, User>, referralInput: string, found: seq<int>, id: int)
    requires InviterKey(referralInput).Some?
    requires IsLookupAnswer(users, InviterKey(referralInput).value, found)
    requires id in users && users[id].referralCode == InviterKey(referralInput).value
    requires forall k :: k in users && k != id ==> users[k].referralCode != InviterKey(referralInput).value
    ensures found != [] && ResolveInviter(referralInput, found) != NoInviter
    ensures ResolveInviter(referralInput, found).InvitedBy? ==> ResolveInviter(referralInput, found).id == id
  {
    assert id in found;
  }

  const MismatchError := "Passwords do not match"
  const PhoneError := "Phone number must be at least 10 digits"
  const CodeError := "Unable to generate unique referral code"
  const InviterError := "Invalid referral code"
  const FallbackError := "Registration failed"

  /** The two form checks in their order: matching passwords, then a phone
      number of at least ten characters. */
  function FormCheck(phone: string, password: string, confirm: string): (r: Option<string>)
    ensures r.None? <==> password == confirm && |phone| >= 10
    ensures password != confirm ==> r == Some(MismatchError)
    ensures password == confirm && |phone| < 10 ==> r == Some(PhoneError)
  {
    if password != confirm then Some(MismatchError)
    else if |phone| < 10 then Some(PhoneError)
    else None
  }

  /** The row inserted for a new user: no money, the generated code, and
      the inviter when there is one. The wallet address is left unset. */
  function NewUser(phone: string, password: string, code: string, inviter: Inviter): (u: User)
    requires !inviter.InvalidCode?
    ensures u.balance == 0.0 && u.available == 0.0 && u.referralCode == code
    ensures u.phone == phone && u.passwordHash == password && u.walletAddress == ""
    ensures u.invitedBy == (if inviter.InvitedBy? then Some(inviter.id) else None)
  {
    User(phone, password, 0.0, 0.0, "", code, if inviter.InvitedBy? then Some(inviter.id) else None)
  }

  /** The sign-up screen's state. */
  class RegisterPage {
    var error: string
    var isLoading: bool
    var generatedCode: string

    constructor ()
      ensures error == "" && !isLoading && generatedCode == ""
    {
      error, isLoading, generatedCode := "", false, "";
    }

    /** handleRegister: ignored while loading; otherwise the form checks,
        the code generation, the inviter lookup and the insert run in turn,
        the first failure setting its message; a successful insert signs
        the new user in (the result) with their code shown. The existence
        queries ask the users table, except the attempts in `failingReads`,
        whose read fails. `found` is the rows the inviter lookup returned
        (none when its read failed) and `insertError` the insert's failure
        message, possibly empty. */
    method HandleRegister(db: Ledger, phone: string, password: string, confirm: string, referralInput: string,
                          draws: seq<int>, failingReads: set<nat>, found: seq<int>,
                          insertError: Option<string>)
      returns (session: Option<Session>)
      requires DrawsCoverAttempts(draws)
      modifies this, db
      ensures old(isLoading) ==> unchanged(this, db) && session.None?
      ensures !isLoading || old(isLoading)
      ensures db.bindings == old(db.bindings) && db.stocks == old(db.stocks) && db.copytrades == old(db.copytrades)
      ensures db.recharges == old(db.recharges) && db.withdraws == old(db.withdraws)
      ensures !old(isLoading) && FormCheck(phone, password, confirm).Some? ==>
        error == FormCheck(phone, password, confirm).value && generatedCode == "" && unchanged(db) && session.None?
      ensures !old(isLoading) && FormCheck(phone, password, confirm).None? ==>
        var code := GeneratedFrom(draws, CodesIn(old(db.users)), failingReads, 0);
        var inviter := ResolveInviter(referralInput, found);
        if code.None? then
          error == CodeError && unchanged(db) && session.None? && generatedCode == ""
        else if inviter.InvalidCode? then
          error == InviterError && unchanged(db) && session.None? && generatedCode == ""
        else if insertError.Some? then
          error == (if insertError.value != "" then insertError.value else FallbackError)
          && unchanged(db) && session.None? && generatedCode == ""
        else
          && error == "" && generatedCode == code.value
          && db.users == old(db.users)[old(db.nextId) := NewUser(phone, password, code.value, inviter)]
          && db.nextId == old(db.nextId) + 1
          && session == Some(Session(phone, old(db.nextId)))
          && (failingReads == {} ==> code.value !in CodesIn(old(db.users)))
    {
      session := None;
      if isLoading {
        return;
      }
      error := "";
      generatedCode := "";
      var check := FormCheck(phone, password, confirm);
      if check.Some? {
        error := check.value;
        return;
      }
      var code := GenerateReferralCode(draws, CodesIn(db.users), failingReads);
      if code.None? {
        error := CodeError;
        return;
      }
      var inviter := ResolveInviter(referralInput, found);
      if inviter.InvalidCode? {
        error := InviterError;
        return;
      }
      if insertError.Some? {
        error := if insertError.value != "" then insertError.value else FallbackError;
        return;
      }
      var id := db.nextId;
      db.users := db.users[id := NewUser(phone, password, code.value, inviter)];
      db.nextId := db.nextId + 1;
      generatedCode := code.value;
      session := Some(Session(phone, id));
    }
  }
}
