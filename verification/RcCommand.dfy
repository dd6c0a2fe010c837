/** The eight channels a command sets, in microseconds. */
module RcCommand {
  const DRONE_MIN := 1000
  const DRONE_MID := 1500
  const DRONE_MAX := 2000

  type Us = u: nat | u < 0x10000

  datatype Command = Command(roll: Us, pitch: Us, yaw: Us, throttle: Us, aux1: Us, aux2: Us, aux3: Us, aux4: Us)
}
