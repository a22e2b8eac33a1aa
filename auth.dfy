/** The login screen (pages/Auth.tsx): a three-step flow welcome → email →
    verification code, where only an email containing '@' and '.' gets past
    the email step, and the code step hands that email to the session's login. */
module Auth {
  import AppContext

  datatype Step = Welcome | EmailStep | Verification

  /** The screen's only check on an email: it contains an '@' and a '.'. */
  predicate LooksLikeEmail(email: string)
    ensures LooksLikeEmail(email) ==> |email| >= 2
    ensures LooksLikeEmail(email) <==>
              (exists i :: 0 <= i < |email| && email[i] == '@') && (exists j :: 0 <= j < |email| && email[j] == '.')
  {
    '@' in email && '.' in email
  }

  class AuthView {
    const session: AppContext.Session
    var email: string
    var step: Step

    /** The code step is only ever reached with an email that passed the check, and the
        email cannot change there (its input exists only at the email step). */
    ghost predicate Valid()
      reads this
    {
      step == Verification ==> LooksLikeEmail(email)
    }

    constructor (s: AppContext.Session)
      ensures Valid()
      ensures session == s && email == "" && step == Welcome
    {
      session := s;
      email := "";
      step := Welcome;
    }

    /** The "Entrar agora" button, shown only on the welcome step. */
    method EnterNow()
      requires step == Welcome
      modifies this
      ensures Valid()
      ensures step == EmailStep && email == old(email)
    {
      step := EmailStep;
    }

    /** Typing into the email input, which is rendered only on the email step. */
    method TypeEmail(text: string)
      requires step == EmailStep
      modifies this
      ensures Valid()
      ensures step == EmailStep && email == text
    {
      email := text;
    }

    /** Submitting the form (shown on the two form steps; its button is disabled while the
        session is loading). At the email step a plausible email advances to the code step
        and anything else leaves the step alone; at the code step the stored email goes to
        the session's login. */
    method Submit()
      requires Valid() && step != Welcome && !session.loading
      modifies this, session
      ensures Valid()
      ensures email == old(email)
      ensures old(step) == EmailStep ==>
                step == (if LooksLikeEmail(email) then Verification else EmailStep) &&
                session.Snapshot() == old(session.Snapshot())
      ensures old(step) == Verification ==>
                step == Verification &&
                LooksLikeEmail(email) &&
                session.Snapshot() == old(session.Snapshot()).(
                  loading := true, pending := old(session.pending) + [AppContext.FinishLogin(email)])
    {
      if step == EmailStep {
        if LooksLikeEmail(email) {
          step := Verification;
        }
      } else {
        session.Login(email);
      }
    }

    /** "Cancelar": back to the welcome step from either form step, keeping the email. */
    method Cancel()
      requires step != Welcome
      modifies this
      ensures Valid()
      ensures step == Welcome && email == old(email)
    {
      step := Welcome;
    }
  }

  /** The check is permissive: it asks for the two characters anywhere, in any order, so
      "@." passes while an address without a dot in it does not. */
  lemma EmailCheckExamples()
    ensures LooksLikeEmail("@.") && LooksLikeEmail("nome@gmail.com")
    ensures !LooksLikeEmail("nome@gmail") && !LooksLikeEmail("nome.gmail.com")
  {
    assert "@."[0] == '@' && "@."[1] == '.';
    assert "nome@gmail.com"[4] == '@' && "nome@gmail.com"[10] == '.';
  }
}
