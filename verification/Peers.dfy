/** The remote peers a light client asks. */
module Peers {

  type Peer = nat
}
