/** What the header lines of a CGI program do to the response, told without the parser. */
module CgiFields {
  import opened Text
  import opened RequestHead
  import opened HeadRefusals
  import opened HttpResponses
  import opened CgiResponses

  /** A status value is a number, and behind its first space, if it has one, a reason. */
  predicate IsStatusText(value: string, code: string, reason: string) {
    ' ' !in code && (value == code + " " + reason || (value == code && reason == ""))
  }

  ghost predicate StatusSays(value: string, status: int, reason: string) {
    exists code :: IsStatusText(value, code, reason) && Spells(code, status)
                   && -0x8000_0000_0000_0000 <= status <= 0x7FFF_FFFF_FFFF_FFFF
  }

  /** What a line makes of a response. "Status" sets status and reason, the standard phrase if there
      is none; "Location" turns a 200 into 302; every line but "Status" is stored as a header. */
  ghost predicate LineSays(res: Response, name: string, value: string, res': Response) {
    if name == "Status" then
      && res'.headers == res.headers && res'.body == res.body
      && exists reason :: StatusSays(value, res'.status, reason)
                          && res'.reason == if reason == "" then StatusToString(res'.status) else reason
    else
      && res'.body == res.body && res'.headers == res.headers[Lower(name) := value]
      && if name == "Location" && res.status == 200 then res'.status == 302 && res'.reason == "Found"
         else res'.status == res.status && res'.reason == res.reason
  }

  lemma StatusSplits(value: string)
    ensures match Find(value, " ", 0)
            case None => forall code, reason :: IsStatusText(value, code, reason) <==> code == value && reason == ""
            case Some(i) => && i < |value|
                            && forall code, reason ::
                                 IsStatusText(value, code, reason) <==> code == value[..i] && reason == value[i + 1..]
  {
    FindIsFirst(value, " ", 0);
    forall i | 0 <= i < |value| ensures HasAt(value, i, " ") <==> value[i] == ' ' {
      assert value[i..i + 1] == [value[i]];
    }
    forall code, reason | value == code + " " + reason ensures value[|code|] == ' ' {}
    if Find(value, " ", 0).Some? {
      SplitsOnce(value, Find(value, " ", 0).value);
    }
  }

  lemma SplitsOnce(value: string, i: nat)
    requires i < |value| && value[i] == ' ' && forall q | 0 <= q < i :: value[q] != ' '
    ensures forall code, reason :: IsStatusText(value, code, reason) <==> code == value[..i] && reason == value[i + 1..]
  {
    assert value == value[..i] + " " + value[i + 1..];
    assert ' ' in value by { assert value[i] == ' '; }
    forall code, reason | IsStatusText(value, code, reason) ensures code == value[..i] && reason == value[i + 1..] {
      CutsThere(value, i, code, reason);
    }
  }

  lemma CutsThere(value: string, i: nat, code: string, reason: string)
    requires i < |value| && value[i] == ' ' && forall q | 0 <= q < i :: value[q] != ' '
    requires value == code + " " + reason && ' ' !in code
    ensures code == value[..i] && reason == value[i + 1..]
  {
    assert value[|code|] == ' ' && value[..|code|] == code && value[|code| + 1..] == reason;
    assert forall q | 0 <= q < |code| :: value[q] == code[q];
  }

  /** A line is stored exactly as it says; the only one that is refused is a "Status" without a
      number, with 502. */
  lemma LinesAreStoredAsTheySay(res: Response, name: string, value: string)
    ensures match Store(res, name, value)
            case Ok(res') => LineSays(res, name, value, res')
            case Err(status) => status == BadGateway && name == "Status"
                                && forall n, reason :: !StatusSays(value, n, reason)
    ensures forall res' | LineSays(res, name, value, res') :: Store(res, name, value) == Ok(res')
  {
    if name == "Status" {
      StatusIsStored(res, value);
    }
  }

  lemma StatusIsStored(res: Response, value: string)
    ensures match Store(res, "Status", value)
            case Ok(res') => LineSays(res, "Status", value, res')
            case Err(status) => status == BadGateway && forall n, reason :: !StatusSays(value, n, reason)
    ensures forall res' | LineSays(res, "Status", value, res') :: Store(res, "Status", value) == Ok(res')
  {
    hide Spells, StrToLong, Find, IsStatusText, StatusToString;
    StatusSplits(value);
    var space := Find(value, " ", 0);
    var code := if space.Some? then value[..space.value] else value;
    forall n ensures StrToLong(code) == Some(n) <==>
                     Spells(code, n) && -0x8000_0000_0000_0000 <= n <= 0x7FFF_FFFF_FFFF_FFFF {
      LongMeaning(code, n);
    }
    var reason := if space.Some? then value[space.value + 1..] else "";
    assert IsStatusText(value, code, reason);
    if StrToLong(code).Some? {
      assert StatusSays(value, StrToLong(code).value, reason);
    }
  }
}
