/** The report e-mail: `{{KEY}}` template substitution and the checks and
    defaults applied to the `email` configuration before anything is sent.
    Building and sending the message is outside the model. */
module Emailer {
  import opened Wrappers
  import opened Text
  import opened Tables
  import opened Config

  // ---------------------------------------------------------------------
  // _tpl
  // ---------------------------------------------------------------------

  /** `f"{{{{{k}}}}}"`: the key between double braces. */
  function Placeholder(k: string): (p: string)
    ensures |p| == |k| + 4
    ensures StartsWith(p, "{{") && EndsWith(p, "}}")
    ensures p[2..|p| - 2] == k
  {
    "{{" + k + "}}"
  }

  /** One keyword argument of `_tpl`, its value already passed through `str`. */
  datatype Binding = Binding(key: string, value: string)

  /** `_tpl(s, **vars)`: the keys are substituted one after the other, in
      argument order, each replacing every occurrence of its placeholder. */
  function Tpl(s: string, vars: seq<Binding>): (r: string)
    // A text holding none of the supplied placeholders comes back unchanged.
    ensures (forall i :: 0 <= i < |vars| ==> !Contains(s, Placeholder(vars[i].key))) ==> r == s
    decreases |vars|
  {
    if vars == [] then s
    else
      var pat := Placeholder(vars[0].key);
      assert forall i :: 1 <= i < |vars| ==> vars[1..][i - 1] == vars[i];
      assert !Contains(s, pat) ==> Replace(s, pat, vars[0].value) == s by {
        if !Contains(s, pat) {
          ReplaceAbsent(s, pat, vars[0].value);
        }
      }
      Tpl(Replace(s, pat, vars[0].value), vars[1..])
  }

  /** For a single key, substitution is `value.join(s.split(placeholder))`. */
  lemma TplOneKey(s: string, k: string, v: string)
    ensures Tpl(s, [Binding(k, v)]) == Join(Split(s, Placeholder(k)), v)
  {
    ReplaceIsSplitJoin(s, Placeholder(k), v);
  }

  /** Substituting one more key acts on the result of the earlier ones. */
  lemma {:induction false} TplAppend(s: string, vars: seq<Binding>, b: Binding)
    ensures Tpl(s, vars + [b]) == Replace(Tpl(s, vars), Placeholder(b.key), b.value)
    decreases |vars|
  {
    if vars != [] {
      assert (vars + [b])[1..] == vars[1..] + [b];
      TplAppend(Replace(s, Placeholder(vars[0].key), vars[0].value), vars[1..], b);
    } else {
      assert ([] + [b])[1..] == [];
    }
  }

  /** A key without braces, such as a Python keyword-argument name. */
  predicate BraceFree(k: string) {
    forall i :: 0 <= i < |k| ==> k[i] != '{' && k[i] != '}'
  }

  /** Where the placeholder of a brace-free key occurs, its two opening
      braces, its key and its two closing braces sit in that order, and no
      other brace lies in between. */
  lemma PlaceholderAt(s: string, k: string, i: int)
    requires BraceFree(k) && OccursAt(s, Placeholder(k), i)
    ensures s[i] == '{' && s[i + 1] == '{'
    ensures s[i + |k| + 2] == '}' && s[i + |k| + 3] == '}'
    ensures s[i + 2..i + 2 + |k|] == k
    ensures forall t :: i <= t < i + |k| + 4 ==>
              (s[t] == '{' <==> t < i + 2) && (s[t] == '}' <==> t >= i + |k| + 2)
  {
    var p := Placeholder(k);
    assert s[i..i + |p|] == p;
    forall t | i <= t < i + |k| + 4
      ensures s[t] == p[t - i]
    {
      assert s[i..i + |p|][t - i] == s[t];
    }
    assert s[i + 2..i + 2 + |k|] == p[2..|p| - 2];
    forall t | i + 2 <= t < i + 2 + |k|
      ensures s[t] == k[t - i - 2]
    {
      assert s[t] == s[i + 2..i + 2 + |k|][t - i - 2];
    }
  }

  /** The placeholders of two different brace-free keys never overlap. */
  lemma PlaceholdersApart(s: string, q: string, k: string, i: int, j: int)
    requires BraceFree(q) && BraceFree(k) && q != k
    requires OccursAt(s, Placeholder(q), i) && OccursAt(s, Placeholder(k), j)
    ensures j + |Placeholder(k)| <= i || i + |Placeholder(q)| <= j
  {
    // An overlap would put an opening brace against a key character or a
    // closing brace, or, at the same start, make the keys equal.
    PlaceholderAt(s, q, i);
    PlaceholderAt(s, k, j);
  }

  /** A placeholder whose key is not supplied survives substitution: with
      brace-free keys no supplied placeholder can overlap it, whatever the
      substituted values hold. */
  lemma {:induction false} TplKeepsUnsuppliedPlaceholder(s: string, vars: seq<Binding>, q: string)
    requires BraceFree(q) && Contains(s, Placeholder(q))
    requires forall i :: 0 <= i < |vars| ==> BraceFree(vars[i].key) && vars[i].key != q
    ensures Contains(Tpl(s, vars), Placeholder(q))
    decreases |vars|
  {
    if vars != [] {
      var k := vars[0].key;
      var i :| 0 <= i <= |s| && OccursAt(s, Placeholder(q), i);
      forall j | OccursAt(s, Placeholder(k), j)
        ensures j + |Placeholder(k)| <= i || i + |Placeholder(q)| <= j
      {
        PlaceholdersApart(s, q, k, i, j);
      }
      ReplaceKeepsOccurrence(s, Placeholder(k), vars[0].value, Placeholder(q), i);
      assert forall i :: 1 <= i < |vars| ==> vars[1..][i - 1] == vars[i];
      TplKeepsUnsuppliedPlaceholder(Replace(s, Placeholder(k), vars[0].value), vars[1..], q);
    }
  }

  /** Binding a key to its own placeholder is a no-op. */
  lemma {:induction false} TplSelfBindings(s: string, vars: seq<Binding>)
    requires forall i :: 0 <= i < |vars| ==> vars[i].value == Placeholder(vars[i].key)
    ensures Tpl(s, vars) == s
    decreases |vars|
  {
    if vars != [] {
      ReplaceBySelf(s, Placeholder(vars[0].key));
      TplSelfBindings(s, vars[1..]);
    }
  }

  // ---------------------------------------------------------------------
  // send_email: guards and defaults
  // ---------------------------------------------------------------------

  const DefaultSmtpPort := 587
  const DefaultSubject := "Rapport {{DATE}}"
  const DefaultHtml := "<p>Voir pièce jointe.</p>"

  /** What `send_email` would hand to SMTP once its checks pass. */
  datatype EmailPlan = EmailPlan(
    host: string,
    port: int,
    useTls: bool,
    username: Option<string>,
    password: Option<string>,
    fromAddr: Option<string>,
    toAddrs: seq<string>,
    subject: string,
    html: string)

  /** `send_email` returns early, raises, or goes on to send `plan`. */
  datatype EmailOutcome = Skipped | Failed(error: Error) | Ready(plan: EmailPlan)

  /** `_tpl(x, DATE=date_str)`. */
  function DateTpl(s: string, dateStr: string): string {
    Tpl(s, [Binding("DATE", dateStr)])
  }

  /** `cfg_email` is present and its `enabled` flag is truthy. */
  predicate Enabled(cfg: Option<EmailConfig>) {
    cfg.Some? && cfg.value.enabled
  }

  /** The configuration side of `send_email(cfg_email, filepath, date_str)`:
      the early return, the value conversions that can raise (`int(None)`,
      `_tpl(None)`), the defaults, and the host/recipient check. */
  function SendEmail(cfg: Option<EmailConfig>, dateStr: string): (o: EmailOutcome)
    ensures o.Skipped? <==> !Enabled(cfg)
    ensures o.Ready? ==>
              var c := cfg.value;
              && Truthy(c.smtpHost) && o.plan.host == c.smtpHost.value
              && c.toAddrs.Given? && o.plan.toAddrs == c.toAddrs.value && o.plan.toAddrs != []
              && o.plan.port == (if c.smtpPort.Given? then c.smtpPort.value else DefaultSmtpPort)
              && o.plan.useTls == (c.useTls.Absent? || (c.useTls.Given? && c.useTls.value))
              && o.plan.fromAddr == (if c.fromAddr.Absent? then c.username else c.fromAddr.Get())
              && o.plan.username == c.username && o.plan.password == c.password
              && o.plan.subject == DateTpl(if c.subject.Given? then c.subject.value else DefaultSubject, dateStr)
              && o.plan.html == DateTpl(if c.html.Given? then c.html.value else DefaultHtml, dateStr)
    ensures Enabled(cfg) && cfg.value.smtpPort.Null? ==> o == Failed(NotAnInteger)
    ensures (Enabled(cfg) && !cfg.value.smtpPort.Null? && (cfg.value.subject.Null? || cfg.value.html.Null?))
            ==> o == Failed(NullTemplate)
    ensures (Enabled(cfg) && !cfg.value.smtpPort.Null? && !cfg.value.subject.Null? && !cfg.value.html.Null?)
            ==> && (o.Failed? <==> !Truthy(cfg.value.smtpHost) || cfg.value.toAddrs.Get() in {None, Some([])})
                && (o.Failed? ==> o.error == EmailIncomplete)
    ensures o.Failed? ==> o.error in {NotAnInteger, NullTemplate, EmailIncomplete}
  {
    if cfg.None? || !cfg.value.enabled then Skipped
    else
      var c := cfg.value;
      match c.smtpPort.GetWithDefault(DefaultSmtpPort)
      case None => Failed(NotAnInteger)
      case Some(port) =>
        var useTls := c.useTls.GetWithDefault(true) == Some(true);
        var fromAddr := match c.fromAddr case Absent => c.username case Null => None case Given(a) => Some(a);
        var toAddrs := c.toAddrs.GetWithDefault([]);
        match (c.subject.GetWithDefault(DefaultSubject), c.html.GetWithDefault(DefaultHtml))
        case (Some(subject), Some(html)) =>
          if !Truthy(c.smtpHost) || toAddrs.None? || toAddrs.value == [] then Failed(EmailIncomplete)
          else Ready(EmailPlan(c.smtpHost.value, port, useTls, c.username, c.password, fromAddr,
                               toAddrs.value, DateTpl(subject, dateStr), DateTpl(html, dateStr)))
        case _ => Failed(NullTemplate)
  }

  /** A configuration that sets only the required fields gets every default:
      port 587, TLS on, the username as sender, the default subject. */
  lemma SendEmailDefaults(host: string, to: seq<string>, user: Option<string>, pass: Option<string>, dateStr: string)
    requires host != "" && to != []
    ensures var o := SendEmail(Some(EmailConfig(true, Some(host), Absent, Absent, user, pass, Absent, Given(to), Absent, Absent)), dateStr);
            o == Ready(EmailPlan(host, DefaultSmtpPort, true, user, pass, user, to,
                                 DateTpl(DefaultSubject, dateStr), DateTpl(DefaultHtml, dateStr)))
  {
  }

  /** Without recipients nothing is ever sent, whatever the defaults. */
  lemma NoRecipientsNeverReady(c: EmailConfig, dateStr: string)
    requires c.toAddrs.Absent?
    ensures !SendEmail(Some(c), dateStr).Ready?
  {
  }
}
