/** The basic email sanity check that registration applies before anything else. */
module Email {

  /** `s.split("@")[-1]`: what follows the last '@' of `s`, or all of `s` when it has none. */
  function AfterLastAt(s: string): (r: string)
    ensures |r| <= |s| && r == s[|s| - |r|..]
    ensures '@' !in r
    ensures |r| < |s| ==> s[|s| - |r| - 1] == '@'
    ensures '@' !in s ==> r == s
  {
    if s == [] then []
    else if s[|s| - 1] == '@' then []
    else AfterLastAt(s[..|s| - 1]) + [s[|s| - 1]]
  }

  /** The check passes: the address has an '@' and a '.' after its last '@'. */
  predicate EmailLooksValid(email: string) {
    '@' in email && '.' in AfterLastAt(email)
  }

  /** The check accepts exactly the strings with an '@' at some position k, no '@' after k and a '.' after k. */
  lemma EmailLooksValidIff(email: string)
    ensures EmailLooksValid(email) <==>
      exists k :: 0 <= k < |email| && email[k] == '@' && '@' !in email[k + 1..] && '.' in email[k + 1..]
  {
    var r := AfterLastAt(email);
    if EmailLooksValid(email) {
      var k := |email| - |r| - 1;
      assert email[k + 1..] == r;
    }
    if k :| 0 <= k < |email| && email[k] == '@' && '@' !in email[k + 1..] && '.' in email[k + 1..] {
      assert email[k] in email;
      assert email[k + 1..] == r;
    }
  }

  /** What follows the last '@' of `local + "@" + domain`, when `domain` has no '@', is `domain`. */
  lemma {:induction false} AfterLastAtOf(local: string, domain: string)
    requires '@' !in domain
    ensures AfterLastAt(local + "@" + domain) == domain
    decreases |domain|
  {
    var s := local + "@" + domain;
    if domain == [] {
      assert s[|s| - 1] == '@';
    } else {
      var last := domain[|domain| - 1];
      assert s[..|s| - 1] == local + "@" + domain[..|domain| - 1];
      assert s[|s| - 1] == last && last != '@';
      AfterLastAtOf(local, domain[..|domain| - 1]);
      assert domain == domain[..|domain| - 1] + [last];
    }
  }

  /** Several '@' and an empty local part are accepted. */
  lemma EmailAcceptedExamples()
    ensures EmailLooksValid("a@b@c.d") && EmailLooksValid("@x.y")
  {
    EmailLooksValidIff("a@b@c.d");
    assert "a@b@c.d"[3] == '@' && "a@b@c.d"[4..] == "c.d";
    EmailLooksValidIff("@x.y");
    assert "@x.y"[0] == '@' && "@x.y"[1..] == "x.y";
  }

  /** Without an '@', or without a '.' after the last '@', the check fails. */
  lemma EmailRejectedExamples()
    ensures !EmailLooksValid("abc.de") && !EmailLooksValid("a.b@cd")
  {
    AfterLastAtOf("a.b", "cd");
    assert "a.b" + "@" + "cd" == "a.b@cd";
  }
}
