/** src/port/Channel.h: what the pollers see of a channel. */
module Channels {

  class Channel {
    const fd: int
    var events: nat
    var revents: nat
    var index: int

    constructor (fd: int)
      ensures this.fd == fd && events == 0 && revents == 0 && index == -1
    {
      this.fd := fd;
      events, revents, index := 0, 0, -1;
    }
  }
}
