/**
 * The text substitution the RotManager constructor performs on the relay's
 * configuration file: every "127.0.0.1:80" becomes the HiddenServicePortDests
 * setting, then every "127.0.0.1:443" becomes HiddenServiceSSLPortDests. The
 * result is written back over the file it was read from.
 */
module ConfigTemplate {
  import opened Wrappers
  import opened Text
  import opened Numbers

  const PortPlaceholder: string := "127.0.0.1:80"
  const SslPortPlaceholder: string := "127.0.0.1:443"
  const ConfFilePrefix: string := "ExpertBundle\\Data\\rotrc_IN_"

  /** The configuration file of instance `i`, relative to the role's base directory. */
  function ConfFileName(i: int): (name: string)
    ensures ConfFilePrefix <= name && IsDigit(name[|name| - 1])
  {
    ConfFilePrefix + IntToString(i)
  }

  /** The two replacements, in the order the constructor makes them. */
  function Substitute(text: string, portDests: string, sslDests: string): (r: string)
    ensures !Contains(text, PortPlaceholder) && !Contains(text, SslPortPlaceholder) ==> r == text
  {
    var step := ReplaceAll(text, PortPlaceholder, portDests);
    ReplaceAll(step, SslPortPlaceholder, sslDests)
  }

  /** Setting values that can never bring a placeholder back into the text. */
  predicate CleanValues(portDests: string, sslDests: string) {
    && Clean(portDests, PortPlaceholder)
    && Clean(sslDests, PortPlaceholder)
    && Clean(sslDests, SslPortPlaceholder)
  }

  /** With clean setting values no placeholder is left after substitution. */
  lemma SubstituteLeavesNoPlaceholder(text: string, portDests: string, sslDests: string)
    requires CleanValues(portDests, sslDests)
    ensures !Contains(Substitute(text, portDests, sslDests), PortPlaceholder)
    ensures !Contains(Substitute(text, portDests, sslDests), SslPortPlaceholder)
  {
    var step := ReplaceAll(text, PortPlaceholder, portDests);
    ReplaceAllKeepsFree(text, PortPlaceholder, portDests, PortPlaceholder);
    ReplaceAllKeepsFree(step, SslPortPlaceholder, sslDests, SslPortPlaceholder);
    ReplaceAllKeepsFree(step, SslPortPlaceholder, sslDests, PortPlaceholder);
  }

  /**
   * "Works only once": the file is overwritten with its substituted text, so a
   * later start substitutes nothing, whatever the settings are by then.
   */
  lemma SecondRunIsNoOp(text: string, portDests: string, sslDests: string, newPortDests: string, newSslDests: string)
    requires CleanValues(portDests, sslDests)
    ensures Substitute(Substitute(text, portDests, sslDests), newPortDests, newSslDests)
         == Substitute(text, portDests, sslDests)
  {
    SubstituteLeavesNoPlaceholder(text, portDests, sslDests);
  }

  /**
   * A value that merely lacks the placeholder is not enough: the text after an
   * occurrence can complete a placeholder begun at the end of the value.
   */
  lemma PlaceholderCanSurvive()
    ensures !Contains("127.0.0.1:8", PortPlaceholder)
    ensures Contains(Substitute("127.0.0.1:800", "127.0.0.1:8", "x"), PortPlaceholder)
  {
    var text := "127.0.0.1:800";
    var value := "127.0.0.1:8";
    assert OccursAt(text, PortPlaceholder, 0);
    assert IndexOf(text, PortPlaceholder) == Some(0);
    assert text[12..] == "0";
    assert ReplaceAll("0", PortPlaceholder, value) == "0";
    var step := ReplaceAll(text, PortPlaceholder, value);
    assert step == value + "0";
    assert OccursAt(step, PortPlaceholder, 0);
    assert !Contains(step, SslPortPlaceholder);
  }

  /** Instances with different numbers use different configuration files. */
  lemma ConfFileNameInjective(i: int, j: int)
    requires ConfFileName(i) == ConfFileName(j)
    ensures i == j
  {
    var n := |ConfFilePrefix|;
    assert ConfFileName(i)[n..] == IntToString(i);
    assert ConfFileName(j)[n..] == IntToString(j);
    IntToStringInjective(i, j);
  }
}
