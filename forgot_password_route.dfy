/** Password reset by e-mailed token: the identifier rule, the request
    that stores a token valid for thirty minutes without revealing whether
    the account exists, the reset that consumes every token of the user,
    and the masking of the address shown when a token is checked. The
    token text and the current time are handed in; hashing is not part of
    this model (the stored password is the secret itself). */
module ForgotPasswordRoute {
  import opened Common
  import opened FormRules

  /** No white space and no '@'. */
  predicate Plain(t: string) {
    forall i :: 0 <= i < |t| ==> !IsSpace(t[i]) && t[i] != '@'
  }

  /** `/^[^\s@]+@[^\s@]+\.[^\s@]+$/`. */
  predicate IsEmailShape(s: string) {
    exists at, dot :: 0 < at && at + 1 < dot && dot + 1 < |s| && s[at] == '@' && s[dot] == '.'
      && Plain(s[..at]) && Plain(s[at + 1..])
  }

  /** The identifier rule: non-empty, and an e-mail address or ten digits. */
  predicate ValidIdentifier(s: string) {
    |s| > 0 && (IsEmailShape(s) || IsTenDigits(s))
  }

  /** `identifier.includes('@')`: the lookup is by e-mail. */
  predicate LooksUpByEmail(s: string) {
    '@' in s
  }

  /** For an identifier the rule accepts, the lookup is by e-mail exactly
      when it has the shape of an address, and by id exactly when it is ten
      digits. */
  lemma LookupFollowsShape(s: string)
    requires ValidIdentifier(s)
    ensures LooksUpByEmail(s) <==> IsEmailShape(s)
    ensures !LooksUpByEmail(s) <==> IsTenDigits(s)
  {
    if IsEmailShape(s) {
      var at, dot :| 0 < at && at + 1 < dot && dot + 1 < |s| && s[at] == '@' && s[dot] == '.'
        && Plain(s[..at]) && Plain(s[at + 1..]);
      assert !IsDigit(s[at]);
    }
    if IsTenDigits(s) {
      assert forall i :: 0 <= i < |s| ==> s[i] != '@';
    }
  }

  /** Thirty minutes, in milliseconds. */
  const TokenLifetime: int := 30 * 60 * 1000

  datatype Account = Account(email: Option<string>, active: bool)

  datatype TokenRow = TokenRow(token: string, userId: string, expiresAt: int, used: bool)

  /** The row a reset or a check accepts: this token, unused, unexpired,
      and belonging to a user that exists. */
  predicate Usable(rows: seq<TokenRow>, i: int, token: string, now: int, users: map<string, Account>) {
    0 <= i < |rows| && rows[i].token == token && !rows[i].used && rows[i].expiresAt > now && rows[i].userId in users
  }

  /** The first usable row for the token at `from` or later, if any. */
  function FirstUsableFrom(rows: seq<TokenRow>, token: string, now: int, users: map<string, Account>, from: nat): (r: Option<nat>)
    requires from <= |rows|
    ensures r.None? <==> forall i :: from <= i < |rows| ==> !Usable(rows, i, token, now, users)
    ensures r.Some? ==> from <= r.value && Usable(rows, r.value, token, now, users)
    ensures r.Some? ==> forall i :: from <= i < r.value ==> !Usable(rows, i, token, now, users)
    decreases |rows| - from
  {
    if from == |rows| then None
    else if Usable(rows, from, token, now, users) then Some(from)
    else FirstUsableFrom(rows, token, now, users, from + 1)
  }

  /** The row the handlers take: the first usable one (`rows[0]`). */
  function FirstUsable(rows: seq<TokenRow>, token: string, now: int, users: map<string, Account>): (r: Option<nat>)
    ensures r.None? <==> forall i :: 0 <= i < |rows| ==> !Usable(rows, i, token, now, users)
    ensures r.Some? ==> Usable(rows, r.value, token, now, users)
    ensures r.Some? ==> forall i :: 0 <= i < r.value ==> !Usable(rows, i, token, now, users)
  {
    FirstUsableFrom(rows, token, now, users, 0)
  }

  /** After the reset: the token and every other token of the user are
      marked used. */
  function Consumed(rows: seq<TokenRow>, token: string, user: string): (out: seq<TokenRow>)
    ensures |out| == |rows|
    ensures forall i :: 0 <= i < |rows| ==> out[i] == rows[i].(used := rows[i].used || rows[i].token == token || rows[i].userId == user)
  {
    seq(|rows|, i requires 0 <= i < |rows| => rows[i].(used := rows[i].used || rows[i].token == token || rows[i].userId == user))
  }

  /** After a reset nothing can use that token again, at any time, and the
      user has no usable token left. */
  lemma ConsumedLeavesNothing(rows: seq<TokenRow>, token: string, user: string, now: int, users: map<string, Account>, i: int)
    ensures !Usable(Consumed(rows, token, user), i, token, now, users)
    ensures 0 <= i < |rows| && rows[i].userId == user ==> !Usable(Consumed(rows, token, user), i, rows[i].token, now, users)
  {
  }

  /** The rows DELETE /cleanup-expired keeps: neither used nor expired
      (`expires_at < NOW() OR used = true` goes). */
  function Kept(rows: seq<TokenRow>, now: int): (out: seq<TokenRow>)
    ensures |out| <= |rows|
    decreases |rows|
  {
    if rows == [] then []
    else
      var last := rows[|rows| - 1];
      Kept(rows[..|rows| - 1], now) + (if !last.used && last.expiresAt >= now then [last] else [])
  }

  /** A row survives the clean-up exactly when it is unused and has not
      expired. */
  lemma {:induction false} KeptMembers(rows: seq<TokenRow>, now: int, row: TokenRow)
    ensures row in Kept(rows, now) <==> row in rows && !row.used && row.expiresAt >= now
    decreases |rows|
  {
    if rows != [] {
      var init := rows[..|rows| - 1];
      KeptMembers(init, now, row);
      assert rows == init + [rows[|rows| - 1]];
    }
  }

  /** The clean-up removes no token a reset could still use, at that
      moment or later. */
  lemma CleanupKeepsUsable(rows: seq<TokenRow>, now: int, later: int, token: string, users: map<string, Account>, i: int)
    requires now <= later && Usable(rows, i, token, later, users)
    ensures rows[i] in Kept(rows, now)
  {
    KeptMembers(rows, now, rows[i]);
  }

  /** The reply to a request, the same whether or not an account matched. */
  const RequestMessage := "If an account with this information exists, a password reset link has been sent."

  datatype Reply = Invalid | Sent(message: string) | BadToken | Reset | Valid(maskedEmail: string) | ServerError

  /** `email.replace(/(.{2}).*(@.*)/, '$1***$2')` on an address with no line
      terminator: the greedy `.*` reaches the last '@', which must stand at
      index 2 or later for the pattern to match; otherwise the address is
      unchanged. */
  function Mask(s: string): (m: string)
  {
    match LastAt(s)
    case Some(k) => if k >= 2 then s[..2] + "***" + s[k..] else s
    case None => s
  }

  /** The index of the last '@'. */
  function LastAt(s: string): (r: Option<nat>)
    ensures r.None? <==> '@' !in s
    ensures r.Some? ==> r.value < |s| && s[r.value] == '@' && '@' !in s[r.value + 1..]
    decreases |s|
  {
    if s == [] then None
    else if s[|s| - 1] == '@' then Some(|s| - 1)
    else
      var r := LastAt(s[..|s| - 1]);
      assert r.Some? ==> s[r.value + 1..] == s[..|s| - 1][r.value + 1..] + [s[|s| - 1]];
      r
  }

  lemma LastAtOfSplit(local: string, domain: string)
    requires '@' !in domain
    ensures LastAt(local + "@" + domain) == Some(|local|)
  {
    var s := local + "@" + domain;
    var r := LastAt(s);
    assert s[|local|] == '@';
    assert s[|local| + 1..] == domain;
  }

  /** An address with one '@' after two characters or more keeps its first
      two characters, then `***`, then the '@' and the domain. */
  lemma MaskHidesLocalPart(local: string, domain: string)
    requires |local| >= 2 && '@' !in local && '@' !in domain
    ensures Mask(local + "@" + domain) == local[..2] + "***" + "@" + domain
  {
    LastAtOfSplit(local, domain);
    var s := local + "@" + domain;
    assert s[..2] == local[..2];
    assert s[|local|..] == "@" + domain;
  }

  /** With the only '@' in the first two characters the address is shown
      as it is. */
  lemma MaskLeavesShortLocalPart(local: string, domain: string)
    requires |local| < 2 && '@' !in domain
    ensures Mask(local + "@" + domain) == local + "@" + domain
  {
    LastAtOfSplit(local, domain);
  }

  /** The account a request names: active, and with that address when the
      identifier holds an '@', with that id otherwise. */
  predicate Names(users: map<string, Account>, identifier: string, u: string) {
    u in users && users[u].active
    && (if LooksUpByEmail(identifier) then users[u].email == Some(identifier) else u == identifier)
  }

  class ResetService {
    var users: map<string, Account>
    var passwords: map<string, string>
    var tokens: seq<TokenRow>

    constructor (users: map<string, Account>, passwords: map<string, string>)
      ensures this.users == users && this.passwords == passwords && tokens == []
    {
      this.users := users;
      this.passwords := passwords;
      tokens := [];
    }

    /** POST /request: 400 for an invalid identifier; otherwise the same
        reply whether or not an active account matches, and a token valid
        for thirty minutes is stored only when one does. */
    method Request(identifier: string, token: string, now: int) returns (reply: Reply)
      modifies this
      ensures !ValidIdentifier(identifier) ==> reply == Invalid && tokens == old(tokens)
      ensures ValidIdentifier(identifier) ==> reply == Sent(RequestMessage)
      ensures tokens != old(tokens) <==> ValidIdentifier(identifier) && exists u :: Names(old(users), identifier, u)
      ensures tokens == old(tokens) || exists u :: (Names(old(users), identifier, u)
        && tokens == old(tokens) + [TokenRow(token, u, now + TokenLifetime, false)])
      ensures users == old(users) && passwords == old(passwords)
    {
      if !ValidIdentifier(identifier) {
        return Invalid;
      }
      if u :| u in users && Names(users, identifier, u) {
        tokens := tokens + [TokenRow(token, u, now + TokenLifetime, false)];
      }
      reply := Sent(RequestMessage);
    }

    /** POST /reset: 400 on a broken rule or without a usable token;
        otherwise the user's password is replaced and the token and all
        other tokens of the user are used up. */
    method ResetPassword(token: string, next: string, confirm: string, now: int) returns (reply: Reply)
      modifies this
      ensures var first := FirstUsable(old(tokens), token, now, old(users));
        reply == Reset <==> |token| > 0 && IsStrongPassword(next) && confirm == next && first.Some?
      ensures var first := FirstUsable(old(tokens), token, now, old(users));
        reply == Reset ==> (first.Some?
          && passwords == old(passwords)[old(tokens)[first.value].userId := next]
          && tokens == Consumed(old(tokens), token, old(tokens)[first.value].userId))
      ensures reply != Reset ==> passwords == old(passwords) && tokens == old(tokens)
      ensures users == old(users)
    {
      if !(|token| > 0 && |next| >= 6 && HasLetter(next) && HasDigit(next) && confirm == next) {
        return Invalid;
      }
      var first := FirstUsable(tokens, token, now, users);
      if first.None? {
        return BadToken;
      }
      var user := tokens[first.value].userId;
      passwords := passwords[user := next];
      tokens := Consumed(tokens, token, user);
      reply := Reset;
    }

    /** DELETE /cleanup-expired. */
    method Cleanup(now: int)
      modifies this
      ensures tokens == Kept(old(tokens), now)
      ensures users == old(users) && passwords == old(passwords)
    {
      tokens := Kept(tokens, now);
    }

    /** POST /verify-token: 400 without a usable token; otherwise the
        owner's address, masked. The mask is applied to the stored address
        unchecked, so an owner without one makes the handler throw: 500. */
    method Verify(token: string, now: int) returns (reply: Reply)
      ensures |token| == 0 ==> reply == Invalid
      ensures |token| > 0 ==> (reply == BadToken <==> FirstUsable(tokens, token, now, users).None?)
      ensures reply == ServerError <==>
        (|token| > 0 && FirstUsable(tokens, token, now, users).Some?
         && users[tokens[FirstUsable(tokens, token, now, users).value].userId].email.None?)
      ensures var first := FirstUsable(tokens, token, now, users);
        |token| > 0 && first.Some? && users[tokens[first.value].userId].email.Some? ==>
          reply == Valid(Mask(users[tokens[first.value].userId].email.value))
      ensures reply.Valid? ==> exists i :: (Usable(tokens, i, token, now, users)
        && users[tokens[i].userId].email.Some? && reply.maskedEmail == Mask(users[tokens[i].userId].email.value))
    {
      if |token| == 0 {
        return Invalid;
      }
      var first := FirstUsable(tokens, token, now, users);
      if first.None? {
        return BadToken;
      }
      var email := users[tokens[first.value].userId].email;
      if email.None? {
        return ServerError;
      }
      reply := Valid(Mask(email.value));
    }
  }
}
