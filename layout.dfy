/** The dashboard shell: it reads the signed-in user's details from the browser's
    cookies and shows the administration links to super administrators only.
    The same cookie reader is used by the dashboard's home page. */
module DashboardLayout {
  import opened Wrappers
  import opened Text

  /** What the reader looks for: `; name=`. */
  function Marker(name: string): string {
    "; " + name + "="
  }

  /** `decodeURIComponent(v)`: the empty string decodes to itself and never throws;
      every other input is left to `decode`. */
  function DecodeComponent(v: string, decode: string -> Option<string>): Option<string> {
    if v == "" then Some("") else decode(v)
  }

  /** `getCookieValue(name)` over the cookie header `cookie`. The header is prefixed
      with `; ` so that the first cookie is found like every later one; the value is
      taken only when the marker splits the header in exactly two, and it runs up to
      the next `;`. (`pop` yields the second part; `split(';')` never yields an empty
      list, so `shift` yields a string and `|| ''` changes nothing.) `decode` is
      `decodeURIComponent`: it yields nothing where it would throw.
      The result is the empty string or the decoding of a non-empty piece holding no
      `;`; CookieFound, CookieAbsent and CookieDuplicated say which. */
  function GetCookieValue(cookie: string, name: string, decode: string -> Option<string>): (r: Option<string>)
    ensures r == Some("") || exists v :: v != "" && ';' !in v && r == decode(v)
  {
    var parts := Split("; " + cookie, Marker(name));
    if |parts| == 2 then
      FirstPiece(parts[1], ';');
      DecodeComponent(Split(parts[1], ";")[0], decode)
    else Some("")
  }

  /** When the marker occurs exactly once, the result is the decoded text after it up
      to the next `;` or the end. */
  lemma CookieFound(cookie: string, name: string, decode: string -> Option<string>, pre: string, post: string)
    requires "; " + cookie == pre + Marker(name) + post
    requires forall i :: Occurs("; " + cookie, Marker(name), i) <==> i == |pre|
    ensures var v := Split(post, ";")[0];
            GetCookieValue(cookie, name, decode) == DecodeComponent(v, decode)
            && ';' !in v && (v == post || StartsWith(post, v + ";"))
  {
    SplitUnique("; " + cookie, Marker(name), pre, post);
    FirstPiece(post, ';');
  }

  /** When the marker does not occur, the result is the empty string. */
  lemma CookieAbsent(cookie: string, name: string, decode: string -> Option<string>)
    requires Free("; " + cookie, Marker(name))
    ensures GetCookieValue(cookie, name, decode) == Some("")
  {
    SplitFree("; " + cookie, Marker(name));
  }

  /** When the marker occurs twice, as with a cookie set twice, the result is the
      empty string too. */
  lemma CookieDuplicated(cookie: string, name: string, decode: string -> Option<string>, i: int, j: int)
    requires Occurs("; " + cookie, Marker(name), i) && Occurs("; " + cookie, Marker(name), j)
    requires i + |Marker(name)| <= j
    ensures GetCookieValue(cookie, name, decode) == Some("")
  {
    SplitTwice("; " + cookie, Marker(name), i, j);
  }

  /** Thanks to the prefix, the marker matches at the start of the header exactly when
      the first cookie is `name=...`, and elsewhere exactly where the header has it. */
  lemma PrefixedHeader(cookie: string, name: string, k: int)
    ensures Occurs("; " + cookie, Marker(name), 0) <==> StartsWith(cookie, name + "=")
    ensures 0 <= k ==> (Occurs("; " + cookie, Marker(name), k + 2) <==> Occurs(cookie, Marker(name), k))
  {
    var s, m := "; " + cookie, Marker(name);
    if Occurs(s, m, 0) {
      assert s[2..|m|] == m[2..];
      assert cookie[..|name| + 1] == s[2..|m|];
    }
    if StartsWith(cookie, name + "=") {
      assert s[..|m|] == "; " + cookie[..|name| + 1];
    }
    if 0 <= k && k + |m| <= |cookie| {
      assert s[k + 2..k + 2 + |m|] == cookie[k..k + |m|];
    }
  }

  /** A header holding one cookie (no `;`) yields its value exactly when its name is
      `name`: `xrole=...` is not `role`, because the marker needs the `; ` before it. */
  lemma SingleCookie(cookie: string, name: string, decode: string -> Option<string>)
    requires ';' !in cookie
    ensures GetCookieValue(cookie, name, decode) ==
              if StartsWith(cookie, name + "=") then DecodeComponent(cookie[|name| + 1..], decode) else Some("")
  {
    var s, m := "; " + cookie, Marker(name);
    forall i | 0 < i ensures !Occurs(s, m, i) {
      if i + |m| <= |s| {
        assert s[i..i + |m|][0] == s[i] && m[0] == ';';
        if i >= 2 {
          assert s[i] == cookie[i - 2];
        }
      }
    }
    PrefixedHeader(cookie, name, 0);
    if StartsWith(cookie, name + "=") {
      var post := cookie[|name| + 1..];
      assert s == "" + m + post;
      CookieFound(cookie, name, decode, "", post);
      FreeChar(post, ';');
      SplitFree(post, ";");
    } else {
      CookieAbsent(cookie, name, decode);
    }
  }

  /** `role=SUPER_ADMIN` alone yields its decoded value for `role`. */
  lemma RoleCookieExample(decode: string -> Option<string>)
    ensures GetCookieValue("role=SUPER_ADMIN", "role", decode) == decode("SUPER_ADMIN")
  {
    var c := "role=SUPER_ADMIN";
    assert StartsWith(c, "role" + "=") && c[|"role"| + 1..] == "SUPER_ADMIN" by {
      assert c[..5] == "role=";
    }
    SingleCookie(c, "role", decode);
  }

  /** `xrole=SUPER_ADMIN` alone yields nothing for `role`. */
  lemma OtherNameExample(decode: string -> Option<string>)
    ensures GetCookieValue("xrole=SUPER_ADMIN", "role", decode) == Some("")
  {
    var c := "xrole=SUPER_ADMIN";
    assert !StartsWith(c, "role" + "=") by {
      assert c[0] != ("role" + "=")[0];
    }
    SingleCookie(c, "role", decode);
  }

  // ---------------------------------------------------------------------------
  // The signed-in user and the navigation

  datatype UserInfo = UserInfo(userId: string, name: string, email: string, role: string)

  /** The state before the cookie effect has run. */
  const InitialUserInfo := UserInfo("", "", "", "ADMIN")

  /** The effect that runs once after the first render: every field is replaced by the
      cookie of the same name. Nothing when a decoding throws. */
  function LoadUserInfo(cookie: string, decode: string -> Option<string>): (r: Option<UserInfo>)
    ensures r.Some? <==> GetCookieValue(cookie, "userId", decode).Some? && GetCookieValue(cookie, "name", decode).Some?
                         && GetCookieValue(cookie, "email", decode).Some? && GetCookieValue(cookie, "role", decode).Some?
    ensures r.Some? ==> r.value == UserInfo(GetCookieValue(cookie, "userId", decode).value,
                                            GetCookieValue(cookie, "name", decode).value,
                                            GetCookieValue(cookie, "email", decode).value,
                                            GetCookieValue(cookie, "role", decode).value)
  {
    match (GetCookieValue(cookie, "userId", decode), GetCookieValue(cookie, "name", decode),
           GetCookieValue(cookie, "email", decode), GetCookieValue(cookie, "role", decode))
    case (Some(userId), Some(name), Some(email), Some(role)) => Some(UserInfo(userId, name, email, role))
    case _ => None
  }

  datatype NavLink = NavLink(href: string, title: string)

  const DashboardLink := NavLink("/", "Dashboard")
  const UserManagementLink := NavLink("/dashboard/users", "User management")
  const EmployeeManagementLink := NavLink("/dashboard/employees", "Employee management")
  const StocksLink := NavLink("/dashboard/stocks", "Stocks Management")
  const PartyLink := NavLink("/dashboard/party", "Party Management")
  const JobLink := NavLink("/dashboard/job", "Job Management")

  /** The entries of `DesktopNav` for a role. */
  function DesktopNavLinks(role: string): (links: seq<NavLink>)
    ensures UserManagementLink in links <==> role == "SUPER_ADMIN"
    ensures EmployeeManagementLink in links <==> role == "SUPER_ADMIN"
    ensures |links| == if role == "SUPER_ADMIN" then 6 else 4
    ensures |links| >= 4 && links[0] == DashboardLink && links[|links| - 3..] == [StocksLink, PartyLink, JobLink]
  {
    [DashboardLink]
    + (if role == "SUPER_ADMIN" then [UserManagementLink, EmployeeManagementLink] else [])
    + [StocksLink, PartyLink, JobLink]
  }

  /** Without a `role` cookie the default role "ADMIN" is overwritten with the empty
      string, so the administration links stay hidden; they are hidden on the first
      render as well, because the default is not SUPER_ADMIN. */
  lemma NoRoleCookieNoAdminLinks(cookie: string, decode: string -> Option<string>)
    requires Free("; " + cookie, Marker("role"))
    requires LoadUserInfo(cookie, decode).Some?
    ensures LoadUserInfo(cookie, decode).value.role == ""
    ensures UserManagementLink !in DesktopNavLinks(LoadUserInfo(cookie, decode).value.role)
    ensures UserManagementLink !in DesktopNavLinks(InitialUserInfo.role)
    ensures EmployeeManagementLink !in DesktopNavLinks(LoadUserInfo(cookie, decode).value.role)
    ensures EmployeeManagementLink !in DesktopNavLinks(InitialUserInfo.role)
  {
    CookieAbsent(cookie, "role", decode);
  }
}
