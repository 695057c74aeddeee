/** The gateway's status, as far as relaying is concerned: counters changed under a mutex and
    command bits. The methods are the critical sections between which threads interleave. */
module GwStatus {
  import opened Relaying

  class Status {
    var cntHttpSuspended: nat
    var cntMqttSuspended: nat
    var httpCmd: bool
    var mqttCmd: bool

    constructor ()
      ensures View() == Counts(0, 0) && !httpCmd && !mqttCmd
    {
      cntHttpSuspended, cntMqttSuspended, httpCmd, mqttCmd := 0, 0, false, false;
    }

    function View(): Counts
      reads this
    {
      Counts(cntHttpSuspended, cntMqttSuspended)
    }

    method SuspendRelaying() returns (notifyHttp: bool, notifyMqtt: bool)
      modifies `cntHttpSuspended, `cntMqttSuspended
      ensures View() == Count(old(View()), SuspendAll)
      ensures notifyHttp == ((old(cntHttpSuspended) == 0) != (cntHttpSuspended == 0))
      ensures notifyMqtt == ((old(cntMqttSuspended) == 0) != (cntMqttSuspended == 0))
    {
      notifyHttp := cntHttpSuspended == 0;
      notifyMqtt := cntMqttSuspended == 0;
      cntHttpSuspended := cntHttpSuspended + 1;
      cntMqttSuspended := cntMqttSuspended + 1;
    }

    method ResumeRelaying() returns (notifyHttp: bool, notifyMqtt: bool)
      modifies `cntHttpSuspended, `cntMqttSuspended
      ensures View() == Count(old(View()), ResumeAll)
      ensures notifyHttp == ((old(cntHttpSuspended) == 0) != (cntHttpSuspended == 0))
      ensures notifyMqtt == ((old(cntMqttSuspended) == 0) != (cntMqttSuspended == 0))
    {
      notifyHttp, notifyMqtt := false, false;
      if cntHttpSuspended != 0 {
        cntHttpSuspended := cntHttpSuspended - 1;
        if cntHttpSuspended == 0 {
          notifyHttp := true;
        }
      }
      if cntMqttSuspended != 0 {
        cntMqttSuspended := cntMqttSuspended - 1;
        if cntMqttSuspended == 0 {
          notifyMqtt := true;
        }
      }
    }

    method SuspendHttpRelaying() returns (notifyHttp: bool)
      modifies `cntHttpSuspended
      ensures View() == Count(old(View()), SuspendHttp)
      ensures notifyHttp == ((old(cntHttpSuspended) == 0) != (cntHttpSuspended == 0))
    {
      notifyHttp := cntHttpSuspended == 0;
      cntHttpSuspended := cntHttpSuspended + 1;
    }

    method ResumeHttpRelaying() returns (notifyHttp: bool)
      modifies `cntHttpSuspended
      ensures View() == Count(old(View()), ResumeHttp)
      ensures notifyHttp == ((old(cntHttpSuspended) == 0) != (cntHttpSuspended == 0))
    {
      notifyHttp := false;
      if cntHttpSuspended != 0 {
        cntHttpSuspended := cntHttpSuspended - 1;
        notifyHttp := cntHttpSuspended == 0;
      }
    }

    method IsHttpRelayingEnabled() returns (enabled: bool)
      ensures enabled == (cntHttpSuspended == 0)
    {
      enabled := cntHttpSuspended == 0;
    }

    /** The bits are set before the event is sent; nothing is sent without a reason. */
    method MarkCommands(notifyHttp: bool, notifyMqtt: bool) returns (notify: bool)
      modifies `httpCmd, `mqttCmd
      ensures notify == (notifyHttp || notifyMqtt)
      ensures httpCmd == (old(httpCmd) || notifyHttp) && mqttCmd == (old(mqttCmd) || notifyMqtt)
    {
      if !notifyHttp && !notifyMqtt { return false; }
      if notifyHttp {
        httpCmd := true;
      }
      if notifyMqtt {
        mqttCmd := true;
      }
      notify := true;
    }

    method ClearHttpRelayingCmd()
      modifies `httpCmd
      ensures !httpCmd
    {
      httpCmd := false;
    }
  }
}
